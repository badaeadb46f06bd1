/** The campaign table of a list: consolidated guests with the greeting
    fields the e-mail templates use and the type of the last e-mail each
    guest received, the visible list, the selection checkboxes, and the
    batched send of a campaign with its log rows. */
module EmailTable {
  import opened Basics
  import opened Seqs
  import opened Text
  import opened Tables
  import opened Attendance
  import opened Consolidation
  import opened Paging
  import opened Batching

  /** The e-mail type recorded for a guest with no log. */
  const NotSent: string := "ninguno"

  /** The macro-event whose logs the table reads and writes. */
  const CampaignMacroEvent: int := 5

  /** The label of an e-mail type, `emailTypeLabels[type]`. */
  function EmailTypeLabel(t: string): Option<string>
  {
    if t == "ninguno" then Some("Invitación no enviada")
    else if t == "registro-p" then Some("Invitación SAE enviada")
    else if t == "registro-v" then Some("Invitación SAE virtual enviada")
    else if t == "recordatorio-p" then Some("Recordatorio SAE enviada")
    else if t == "recordatorio-v" then Some("Recordatorio SAE virtual enviada")
    else None
  }

  /** The SendGrid template of an e-mail type, `templateIds[type]`. */
  function TemplateId(t: string): Option<string>
  {
    if t == "registro-p" then Some("d-e9c0123bda8f46eabd8cda5feb941e09")
    else if t == "registro-v" then Some("d-19d5cfaf534948c48a9f8c9b16bc041f")
    else if t == "recordatorio-v" then Some("d-961094c8e22f416b80e9339fbaa274c1")
    else if t == "recordatorio-p" then Some("d-2c004db5809e48a49024d4b179c18281")
    else None
  }

  /** The only e-mail type the confirmation dialog offers. */
  const ConfirmDialogType: string := "registro"

  // ---------------------------------------------------------------------
  // Last e-mail sent

  /** The e-mail addresses that occur in `logs`. */
  function LogEmails(logs: seq<SendgridLog>): set<string>
  {
    set k | 0 <= k < |logs| :: logs[k].email
  }

  /** Log `k` is the first log of its address. */
  ghost predicate IsFirstOfEmail(logs: seq<SendgridLog>, k: int)
    requires 0 <= k < |logs|
  {
    forall j :: 0 <= j < k ==> logs[j].email != logs[k].email
  }

  /** `lastEmailSentMap`: walking the logs in query order, the first log of
      an address sets its entry and later ones are ignored. */
  function FirstTypeByEmail(logs: seq<SendgridLog>): (m: map<string, string>)
    ensures m.Keys == LogEmails(logs)
    ensures forall k :: 0 <= k < |logs| && IsFirstOfEmail(logs, k) ==> m[logs[k].email] == logs[k].emailType
  {
    if |logs| == 0 then map[]
    else
      var rest := FirstTypeByEmail(logs[1..]);
      assert forall k :: 1 <= k < |logs| ==> logs[k] == logs[1..][k - 1];
      assert LogEmails(logs) == LogEmails(logs[1..]) + {logs[0].email} by {
        forall e | e in LogEmails(logs) ensures e in LogEmails(logs[1..]) + {logs[0].email} {
          var k :| 0 <= k < |logs| && logs[k].email == e;
          if k > 0 { assert logs[1..][k - 1] == logs[k]; }
        }
      }
      FirstTypeStep(logs, rest);
      rest[logs[0].email := logs[0].emailType]
  }

  /** One step of `FirstTypeByEmail`: putting a log in front keeps the
      contract. */
  lemma FirstTypeStep(logs: seq<SendgridLog>, rest: map<string, string>)
    requires |logs| > 0
    requires rest.Keys == LogEmails(logs[1..])
    requires forall k :: 0 <= k < |logs| - 1 && IsFirstOfEmail(logs[1..], k) ==> logs[1..][k].email in rest && rest[logs[1..][k].email] == logs[1..][k].emailType
    ensures forall k :: 0 <= k < |logs| && IsFirstOfEmail(logs, k) ==>
      rest[logs[0].email := logs[0].emailType][logs[k].email] == logs[k].emailType
  {
    forall k | 0 <= k < |logs| && IsFirstOfEmail(logs, k)
      ensures rest[logs[0].email := logs[0].emailType][logs[k].email] == logs[k].emailType
    {
      if k > 0 {
        assert logs[1..][k - 1] == logs[k];
        assert IsFirstOfEmail(logs[1..], k - 1) by {
          forall j | 0 <= j < k - 1 ensures logs[1..][j].email != logs[1..][k - 1].email {
            assert logs[1..][j] == logs[j + 1];
          }
        }
      }
    }
  }

  /** A log of the campaign's macro-event. */
  predicate OfCampaign(l: SendgridLog)
  {
    l.macroEventId == CampaignMacroEvent
  }

  /** The rows the `sendgridLogs` query returns: the logs of macro-event
      `CampaignMacroEvent`, in table order. */
  function CampaignLogRows(logs: seq<SendgridLog>): seq<SendgridLog>
  {
    Filter(logs, OfCampaign)
  }

  /** `lastEmailSentMap.get(email) || 'ninguno'` over the `sendgridLogs`
      table `logs`: the type of the first log of the address among the
      campaign's macro-event logs, or `'ninguno'` when there is none (or
      its type is empty). Logs of other macro-events never count. A failed
      log read leaves the dictionary empty. */
  function LastEmailSent(logs: Fetch<SendgridLog>, email: string): (t: string)
    ensures t != ""
    ensures logs.FetchFailed? ==> t == NotSent
    ensures logs.Fetched? && email !in LogEmails(CampaignLogRows(logs.rows)) ==> t == NotSent
    ensures logs.Fetched? && (forall l :: l in logs.rows && l.email == email ==> !OfCampaign(l)) ==> t == NotSent
    ensures logs.Fetched? ==> var c := CampaignLogRows(logs.rows);
      forall k :: (0 <= k < |c| && c[k].email == email && IsFirstOfEmail(c, k)) ==>
        t == (if c[k].emailType == "" then NotSent else c[k].emailType)
  {
    match logs
    case FetchFailed => NotSent
    case Fetched(rows) => TypeIn(CampaignLogRows(rows), email)
  }

  /** The dictionary lookup over the rows the query returned. */
  function TypeIn(c: seq<SendgridLog>, email: string): string
  {
    var m := FirstTypeByEmail(c);
    if email in m && m[email] != "" then m[email] else NotSent
  }

  /** A log of another macro-event, wherever it sits in the table, does
      not change any guest's last e-mail. */
  lemma OtherMacroEventLogIgnored(rows: seq<SendgridLog>, i: nat, x: SendgridLog, email: string)
    requires i <= |rows| && !OfCampaign(x)
    ensures LastEmailSent(Fetched(rows[..i] + [x] + rows[i..]), email) == LastEmailSent(Fetched(rows), email)
  {
    var a, b := rows[..i], rows[i..];
    assert a + b == rows;
    assert LastEmailSent(Fetched(a + [x] + b), email) == TypeIn(CampaignLogRows(a + [x] + b), email);
    assert LastEmailSent(Fetched(rows), email) == TypeIn(CampaignLogRows(rows), email);
    assert CampaignLogRows(a + [x] + b) == CampaignLogRows(rows) by {
      FilterAppend(a + [x], b, OfCampaign);
      FilterAppend(a, [x], OfCampaign);
      FilterAppend(a, b, OfCampaign);
      FilterNone([x], OfCampaign);
    }
  }

  /** The logs come newest first (`order('created_at', desc)`). */
  ghost predicate NewestFirst(logs: seq<SendgridLog>)
  {
    forall i, j :: 0 <= i < j < |logs| ==> logs[i].createdAt >= logs[j].createdAt
  }

  /** With the query's rows newest first, the type reported for an address
      is that of one of its newest logs of the campaign's macro-event. */
  lemma LastEmailIsNewest(logs: seq<SendgridLog>, email: string)
    requires NewestFirst(CampaignLogRows(logs))
    requires exists l :: l in logs && OfCampaign(l) && l.email == email
    ensures exists l :: (l in logs && OfCampaign(l) && l.email == email
      && (forall l2 :: l2 in logs && OfCampaign(l2) && l2.email == email ==> l2.createdAt <= l.createdAt)
      && LastEmailSent(Fetched(logs), email) == (if l.emailType == "" then NotSent else l.emailType))
  {
    var c := CampaignLogRows(logs);
    var l0 :| l0 in logs && OfCampaign(l0) && l0.email == email;
    assert l0 in c;
    var k := FirstIndexOf(c, email);
    var l := c[k];
    FirstIsNewest(c, email);
    TypeInFirst(c, email);
    assert LastEmailSent(Fetched(logs), email) == TypeIn(c, email);
    forall l2 | l2 in logs && OfCampaign(l2) && l2.email == email
      ensures l2.createdAt <= l.createdAt
    {
      assert l2 in c;
    }
    assert l in logs && OfCampaign(l);
  }

  /** In rows ordered newest first, the first log of an address is one of
      its newest. */
  lemma FirstIsNewest(c: seq<SendgridLog>, email: string)
    requires NewestFirst(c) && email in LogEmails(c)
    ensures forall l2 :: l2 in c && l2.email == email ==> l2.createdAt <= c[FirstIndexOf(c, email)].createdAt
  {
    var k := FirstIndexOf(c, email);
    forall l2 | l2 in c && l2.email == email
      ensures l2.createdAt <= c[k].createdAt
    {
      var j :| 0 <= j < |c| && c[j] == l2;
      if j != k {
        assert k < j;
      }
    }
  }

  /** The dictionary holds the type of the first log of an address. */
  lemma TypeInFirst(c: seq<SendgridLog>, email: string)
    requires email in LogEmails(c)
    ensures TypeIn(c, email) == (if c[FirstIndexOf(c, email)].emailType == "" then NotSent else c[FirstIndexOf(c, email)].emailType)
  {
    assert IsFirstOfEmail(c, FirstIndexOf(c, email));
  }

  function FirstIndexOf(logs: seq<SendgridLog>, email: string): (k: nat)
    requires email in LogEmails(logs)
    ensures k < |logs| && logs[k].email == email
    ensures forall j :: 0 <= j < k ==> logs[j].email != email
  {
    if logs[0].email == email then 0
    else
      assert email in LogEmails(logs[1..]) by {
        var k :| 0 <= k < |logs| && logs[k].email == email;
        assert logs[1..][k - 1] == logs[k];
      }
      1 + FirstIndexOf(logs[1..], email)
  }

  // ---------------------------------------------------------------------
  // Consolidated guests

  /** A consolidated guest of the campaign table. */
  datatype CampaignGuest = CampaignGuest(
    core: GuestCore,
    lastEmailSent: string,
    lastEmailSentShow: string,
    apodo: string,
    estimado: string,
    tareco: string,
    isUser: bool)


  /** `o?.trim()` on an optional string. */
  function TrimOpt(o: Option<string>): Option<string>
  {
    match o
    case Some(s) => Some(Trim(s))
    case None => None
  }

  /** The display name: the trimmed `"<name> <last name>"` of the executive
      for internal guests (a missing executive name prints as
      `"undefined"`), `name ?? ''` otherwise. */
  function CampaignName(g: Guest): string
  {
    if g.isUser then
      Trim(Interp(TrimOpt(ExecField(g.executive, ExecName))) + " " + GetOr(TrimOpt(ExecField(g.executive, ExecLastName)), ""))
    else GetOr(g.name, "")
  }

  /** The consolidated campaign row of guest `g`. */
  function ConsolidateForCampaign(g: Guest, att: map<nat, Entry>, logs: Fetch<SendgridLog>): (c: CampaignGuest)
    ensures c.core == Consolidate(g, CampaignName(g), att)
    ensures c.isUser == g.isUser
    ensures c.lastEmailSent == LastEmailSent(logs, GetOr(g.email, ""))
    ensures c.lastEmailSentShow == GetOr(EmailTypeLabel(c.lastEmailSent), "Invitación no enviada")
    ensures g.isUser ==> c.apodo == GetOr(NonBlank(ExecField(g.executive, ExecApodo)), CampaignName(g))
    ensures g.isUser ==> c.estimado == GetOr(NonBlank(ExecField(g.executive, ExecEstimado)), "Estimado(a)")
    ensures g.isUser ==> c.tareco == GetOr(NonBlank(ExecField(g.executive, ExecTareco)), "-")
    ensures !g.isUser ==> c.apodo == CampaignName(g) && c.estimado == "Estimado(a)" && c.tareco == "-"
  {
    var name := CampaignName(g);
    var last := LastEmailSent(logs, GetOr(g.email, ""));
    CampaignGuest(
      Consolidate(g, name, att),
      last,
      GetOr(EmailTypeLabel(last), "Invitación no enviada"),
      if g.isUser then GetOr(NonBlank(ExecField(g.executive, ExecApodo)), name) else name,
      if g.isUser then GetOr(NonBlank(ExecField(g.executive, ExecEstimado)), "Estimado(a)") else "Estimado(a)",
      if g.isUser then GetOr(NonBlank(ExecField(g.executive, ExecTareco)), "-") else "-",
      g.isUser)
  }

  /** The greeting fields: `estimado` and `tareco` are never empty, and
      neither is `apodo` unless the guest's name is; each is either a
      non-blank executive value without outer blanks or its fallback. */
  lemma GreetingFields(g: Guest, att: map<nat, Entry>, logs: Fetch<SendgridLog>)
    ensures var c := ConsolidateForCampaign(g, att, logs);
      && c.estimado != "" && c.tareco != ""
      && (c.core.name != "" ==> c.apodo != "")
      && (c.apodo == c.core.name || (c.apodo != "" && Trim(c.apodo) == c.apodo))
      && (c.estimado == "Estimado(a)" || Trim(c.estimado) == c.estimado)
      && (c.tareco == "-" || Trim(c.tareco) == c.tareco)
  {
    var c := ConsolidateForCampaign(g, att, logs);
    assert c.core.name == CampaignName(g);
    if g.isUser {
      var apodo := NonBlank(ExecField(g.executive, ExecApodo));
      var estimado := NonBlank(ExecField(g.executive, ExecEstimado));
      var tareco := NonBlank(ExecField(g.executive, ExecTareco));
      assert apodo.Some? ==> c.apodo == apodo.value;
      assert estimado.Some? ==> c.estimado == estimado.value;
      assert tareco.Some? ==> c.tareco == tareco.value;
    }
  }

  /** A guest with no log of the campaign's macro-event is shown as not
      invited yet, whatever other macro-events sent it. */
  lemma NoLogNotInvited(g: Guest, att: map<nat, Entry>, logs: seq<SendgridLog>)
    requires forall l :: l in logs && l.email == GetOr(g.email, "") ==> !OfCampaign(l)
    ensures ConsolidateForCampaign(g, att, Fetched(logs)).lastEmailSent == NotSent
    ensures ConsolidateForCampaign(g, att, Fetched(logs)).lastEmailSentShow == "Invitación no enviada"
  {
  }

  /** `fetchGuests`: the list's guests, consolidated in query order. A
      failed guest read leaves the table empty. */
  function FetchCampaignGuests(guests: Fetch<Guest>, listId: nat, eventId: Option<nat>,
                               eventGuests: Fetch<EventGuestRow>, eventLists: Fetch<EventList>,
                               logs: Fetch<SendgridLog>): (r: seq<CampaignGuest>)
    ensures guests.FetchFailed? ==> r == []
    ensures guests.Fetched? ==> |r| == |Filter(guests.rows, (g: Guest) => g.listId == listId)|
    ensures guests.Fetched? ==> forall i :: 0 <= i < |r| ==>
      r[i] == ConsolidateForCampaign(Filter(guests.rows, (g: Guest) => g.listId == listId)[i],
                                     AttendanceMap(eventId, listId, eventGuests, eventLists), logs)
  {
    match guests
    case FetchFailed => []
    case Fetched(rows) =>
      var att := AttendanceMap(eventId, listId, eventGuests, eventLists);
      MapSeq(Filter(rows, (g: Guest) => g.listId == listId), (g: Guest) => ConsolidateForCampaign(g, att, logs))
  }

  // ---------------------------------------------------------------------
  // Visible list, user types and selection

  /** The filter of the last-e-mail column: `'todos'` or one e-mail type. */
  const AllTypes: string := "todos"

  /** The guests the table shows: free-trial users are hidden, a filter
      other than `'todos'` keeps only guests whose last e-mail has that
      type, and the rest are sorted by company. */
  function VisibleGuests(guests: seq<CampaignGuest>, filter: string, leq: (string, string) -> bool): (r: seq<CampaignGuest>)
    requires TotalPreorder(leq)
    ensures forall i :: 0 <= i < |r| ==> Lower(r[i].core.tipoUsuario) != "free trial"
    ensures filter != AllTypes ==> forall i :: 0 <= i < |r| ==> r[i].lastEmailSent == filter
    ensures SortedBy(r, (g: CampaignGuest) => g.core.company, leq)
    ensures forall g :: g in r <==>
      g in guests && Lower(g.core.tipoUsuario) != "free trial" && (filter == AllTypes || g.lastEmailSent == filter)
    ensures multiset(r) <= multiset(guests)
  {
    var shown := Shown(guests, filter);
    var r := SortBy(shown, (g: CampaignGuest) => g.core.company, leq);
    SameMembers(r, shown);
    r
  }

  /** The visible guests before sorting. */
  function Shown(guests: seq<CampaignGuest>, filter: string): (r: seq<CampaignGuest>)
    ensures forall g :: g in r <==>
      g in guests && Lower(g.core.tipoUsuario) != "free trial" && (filter == AllTypes || g.lastEmailSent == filter)
    ensures multiset(r) <= multiset(guests)
  {
    var noTrial := Filter(guests, (g: CampaignGuest) => Lower(g.core.tipoUsuario) != "free trial");
    if filter != AllTypes then Filter(noTrial, (g: CampaignGuest) => g.lastEmailSent == filter) else noTrial
  }

  /** The user-type filter options: `'Todos'` followed by the distinct
      non-empty user types of the guests, in first-occurrence order. */
  function UserTypeOptions(guests: seq<CampaignGuest>): (r: seq<string>)
    ensures |r| >= 1 && r[0] == "Todos"
    ensures NoDuplicates(r)
    ensures forall t :: t in r[1..] <==> IsUserType(t) && t in MapSeq(guests, TipoUsuario)
  {
    var types := MapSeq(guests, TipoUsuario);
    var extra := Filter(Dedup(types), IsUserType);
    FilterKeepsDistinct(Dedup(types), IsUserType);
    var r := ["Todos"] + extra;
    assert r[1..] == extra;
    r
  }

  function TipoUsuario(g: CampaignGuest): string { g.core.tipoUsuario }

  /** A user type worth an option of its own: not empty and not `'Todos'`. */
  predicate IsUserType(t: string) { t != "" && t != "Todos" }

  /** The user types offered are those of some guest. */
  lemma UserTypeOfSomeGuest(guests: seq<CampaignGuest>, t: string)
    ensures t in UserTypeOptions(guests)[1..] <==>
      IsUserType(t) && exists i :: 0 <= i < |guests| && guests[i].core.tipoUsuario == t
  {
    var types := MapSeq(guests, TipoUsuario);
    if t in types {
      var i :| 0 <= i < |types| && types[i] == t;
      assert guests[i].core.tipoUsuario == t;
    }
    if i :| 0 <= i < |guests| && guests[i].core.tipoUsuario == t {
      assert types[i] == t;
    }
  }

  /** Filtering keeps a duplicate-free sequence duplicate-free. */
  lemma {:induction false} FilterKeepsDistinct<T(!new)>(s: seq<T>, p: T -> bool)
    requires NoDuplicates(s)
    ensures NoDuplicates(Filter(s, p))
  {
    if |s| > 0 {
      FilterKeepsDistinct(s[1..], p);
      assert NoDuplicates(s[1..]) by {
        forall i, j | 0 <= i < j < |s| - 1 ensures s[1..][i] != s[1..][j] {
          assert s[1..][i] == s[i + 1] && s[1..][j] == s[j + 1];
        }
      }
      if p(s[0]) {
        assert s[0] !in s[1..] by {
          forall k | 0 <= k < |s| - 1 ensures s[1..][k] != s[0] {
            assert s[1..][k] == s[k + 1];
          }
        }
        var r := [s[0]] + Filter(s[1..], p);
        forall i, j | 0 <= i < j < |r| ensures r[i] != r[j] {
          if i == 0 {
            assert r[j] in Filter(s[1..], p);
          }
        }
      }
    }
  }

  /** `handleGuestSelect`: the checkbox of guest `id` flips. */
  function SelectGuest(selected: seq<nat>, id: nat): (r: seq<nat>)
    ensures id in r <==> id !in selected
    ensures forall other :: other != id ==> (other in r <==> other in selected)
  {
    Toggle(selected, id)
  }

  /** The selection and the "select all" flag. */
  datatype Selection = Selection(ids: seq<nat>, all: bool)

  /** `handleSelectAll`: with the flag off, adds every visible id once;
      with it on, removes every visible id; either way the flag flips. */
  function SelectAll(s: Selection, visible: seq<CampaignGuest>): (r: Selection)
    ensures r.all == !s.all
    ensures !s.all ==> NoDuplicates(r.ids)
    ensures !s.all ==> forall id :: id in r.ids <==> id in s.ids || exists i :: 0 <= i < |visible| && visible[i].core.id == id
    ensures s.all ==> forall id :: id in r.ids <==> id in s.ids && forall i :: 0 <= i < |visible| ==> visible[i].core.id != id
  {
    var visibleIds := MapSeq(visible, (g: CampaignGuest) => g.core.id);
    if s.all then
      Selection(Filter(s.ids, (id: nat) => id !in visibleIds), false)
    else
      Selection(Dedup(s.ids + visibleIds), true)
  }

  /** Clicking "select all" twice deselects exactly the visible guests and
      restores the flag. */
  lemma SelectAllTwice(s: Selection, visible: seq<CampaignGuest>)
    requires !s.all
    ensures SelectAll(SelectAll(s, visible), visible).all == s.all
    ensures forall id :: id in SelectAll(SelectAll(s, visible), visible).ids <==>
      id in s.ids && forall i :: 0 <= i < |visible| ==> visible[i].core.id != id
  {
  }

  // ---------------------------------------------------------------------
  // Sending a campaign

  /** A recipient of the campaign, with the template data it needs. */
  datatype Recipient = Recipient(email: string, name: string, estimado: string, apodo: string)

  /** One personalization of a send request: the recipient, the fixed
      blind copy, and the template data with the registration link. */
  datatype Personalization = Personalization(to: string, bcc: string, firstName: string, estimado: string,
                                             apodo: string, registerLink: string)

  /** One request to the e-mail route: a template and one personalization
      per recipient of the batch. */
  datatype Request = Request(templateId: string, personalizations: seq<Personalization>)

  /** A row inserted into `sendgridLogs`. */
  datatype LogInsert = LogInsert(email: string, emailType: string, macroEventId: int)

  /** What confirming a campaign does. */
  datatype Campaign =
    | NoSelection
    | UnknownTemplate
    | Sent(requests: seq<Request>, logs: seq<LogInsert>)

  /** The blind copy of every campaign e-mail. */
  const CampaignBcc := "contactasae@apoyoconsultoria.com"

  /** The registration site; a recipient's link is this followed by the
      URI-component encoding of the e-mail. */
  const RegisterLinkBase := "https://sae-register.vercel.app/"

  /** The personalization of a recipient; `encode` stands for
      `encodeURIComponent`. */
  function Personalize(encode: string -> string): Recipient -> Personalization
  {
    (r: Recipient) => Personalization(r.email, CampaignBcc, r.name, r.estimado, r.apodo, RegisterLinkBase + encode(r.email))
  }

  function LogOf(emailType: string): Recipient -> LogInsert
  {
    (r: Recipient) => LogInsert(r.email, emailType, CampaignMacroEvent)
  }

  /** `handleEmailConfirmation`: nothing happens with no guest selected or
      an e-mail type without a template; otherwise every batch of
      recipients is sent, and the log rows of a batch are inserted only
      when its send succeeded (`sendFails` holds the indices of batches the
      route rejects) and the insert itself succeeded (`logFails`). The
      recipients are a fixed list, not the selection. Every personalization
      is blind-copied to the fixed address and links to the registration
      page of its own e-mail. */
  function SendCampaign(selected: seq<nat>, emailType: string, recipients: seq<Recipient>,
                        sendFails: set<nat>, logFails: set<nat>, encode: string -> string): (c: Campaign)
    ensures c.NoSelection? <==> |selected| == 0
    ensures c.UnknownTemplate? <==> |selected| > 0 && TemplateId(emailType).None?
    ensures c.Sent? ==> |c.requests| == CeilDiv(|recipients|, BatchSize)
    ensures c.Sent? ==> forall k :: 0 <= k < |c.requests| ==>
      c.requests[k].templateId == TemplateId(emailType).value && 0 < |c.requests[k].personalizations| <= BatchSize
    ensures c.Sent? ==> forall k, j :: 0 <= k < |c.requests| && 0 <= j < |c.requests[k].personalizations| ==>
      c.requests[k].personalizations[j].bcc == CampaignBcc &&
      c.requests[k].personalizations[j].registerLink == RegisterLinkBase + encode(c.requests[k].personalizations[j].to)
    ensures c.Sent? ==> forall k :: 0 <= k < |c.logs| ==>
      c.logs[k].emailType == emailType && c.logs[k].macroEventId == CampaignMacroEvent
  {
    if |selected| == 0 then NoSelection
    else if TemplateId(emailType).None? then UnknownTemplate
    else
      var batches := Chunks(recipients, BatchSize);
      var requests := MapSeq(batches, (b: seq<Recipient>) => Request(TemplateId(emailType).value, MapSeq(b, Personalize(encode))));
      Sent(requests, CampaignLogs(batches, emailType, sendFails, logFails, 0))
  }

  /** The log rows of batches `from..`: a batch contributes its rows when
      neither its send nor its insert failed. */
  function CampaignLogs(batches: seq<seq<Recipient>>, emailType: string, sendFails: set<nat>,
                        logFails: set<nat>, from: nat): (logs: seq<LogInsert>)
    ensures forall k :: 0 <= k < |logs| ==> logs[k].emailType == emailType && logs[k].macroEventId == CampaignMacroEvent
    ensures |logs| <= |Concat(batches)|
    decreases |batches|
  {
    if |batches| == 0 then []
    else
      var here := if from in sendFails || from in logFails then [] else MapSeq(batches[0], LogOf(emailType));
      var rest := CampaignLogs(batches[1..], emailType, sendFails, logFails, from + 1);
      here + rest
  }

  /** Every request concatenated is one personalization per recipient, in
      order. */
  lemma RequestsCoverRecipients(selected: seq<nat>, emailType: string, recipients: seq<Recipient>,
                                sendFails: set<nat>, logFails: set<nat>, encode: string -> string)
    requires |selected| > 0 && TemplateId(emailType).Some?
    ensures var c := SendCampaign(selected, emailType, recipients, sendFails, logFails, encode);
      Concat(MapSeq(c.requests, (q: Request) => q.personalizations)) == MapSeq(recipients, Personalize(encode))
  {
    var tid := TemplateId(emailType).value;
    var batches := Chunks(recipients, BatchSize);
    var requests := MapSeq(batches, (b: seq<Recipient>) => Request(tid, MapSeq(b, Personalize(encode))));
    assert MapSeq(requests, (q: Request) => q.personalizations)
        == MapSeq(batches, (part: seq<Recipient>) => MapSeq(part, Personalize(encode)));
    ConcatMapSeq(batches, Personalize(encode));
  }

  /** When every batch is delivered and logged, there is one log row per
      recipient, in order. */
  lemma {:induction false} AllDeliveredAllLogged(batches: seq<seq<Recipient>>, emailType: string, from: nat)
    ensures CampaignLogs(batches, emailType, {}, {}, from) == MapSeq(Concat(batches), LogOf(emailType))
    decreases |batches|
  {
    if |batches| > 0 {
      AllDeliveredAllLogged(batches[1..], emailType, from + 1);
      MapSeqAppend(batches[0], Concat(batches[1..]), LogOf(emailType));
    }
  }

  /** When no batch is delivered, nothing is logged. */
  lemma {:induction false} NoneDeliveredNoneLogged(batches: seq<seq<Recipient>>, emailType: string,
                                                 sendFails: set<nat>, logFails: set<nat>, from: nat)
    requires forall k :: from <= k < from + |batches| ==> k in sendFails
    ensures CampaignLogs(batches, emailType, sendFails, logFails, from) == []
    decreases |batches|
  {
    if |batches| > 0 {
      NoneDeliveredNoneLogged(batches[1..], emailType, sendFails, logFails, from + 1);
    }
  }

  /** `email` is the address of a recipient of a batch of `batches`
      (numbered from `from`) that was both delivered and logged. */
  ghost predicate DeliveredTo(batches: seq<seq<Recipient>>, sendFails: set<nat>, logFails: set<nat>, from: nat, email: string)
  {
    exists k, j :: 0 <= k < |batches| && from + k !in sendFails && from + k !in logFails
      && 0 <= j < |batches[k]| && batches[k][j].email == email
  }

  /** A recipient of a delivered and logged batch. */
  lemma DeliveredAt(batches: seq<seq<Recipient>>, sendFails: set<nat>, logFails: set<nat>, from: nat, k: nat, j: nat)
    requires k < |batches| && from + k !in sendFails && from + k !in logFails && j < |batches[k]|
    ensures DeliveredTo(batches, sendFails, logFails, from, batches[k][j].email)
  {
  }

  /** A recipient of a later batch is one of all the batches. */
  lemma DeliveredLater(batches: seq<seq<Recipient>>, sendFails: set<nat>, logFails: set<nat>, from: nat, email: string)
    requires |batches| > 0
    requires DeliveredTo(batches[1..], sendFails, logFails, from + 1, email)
    ensures DeliveredTo(batches, sendFails, logFails, from, email)
  {
    var k, j :| 0 <= k < |batches[1..]| && from + 1 + k !in sendFails && from + 1 + k !in logFails
      && 0 <= j < |batches[1..][k]| && batches[1..][k][j].email == email;
    assert batches[k + 1] == batches[1..][k];
    DeliveredAt(batches, sendFails, logFails, from, k + 1, j);
  }

  /** Every log row names a recipient of a batch that was delivered and
      logged. */
  lemma {:induction false} LogsOnlyForDelivered(batches: seq<seq<Recipient>>, emailType: string,
                                              sendFails: set<nat>, logFails: set<nat>, from: nat, i: nat)
    requires i < |CampaignLogs(batches, emailType, sendFails, logFails, from)|
    ensures DeliveredTo(batches, sendFails, logFails, from, CampaignLogs(batches, emailType, sendFails, logFails, from)[i].email)
    decreases |batches|
  {
    var logs := CampaignLogs(batches, emailType, sendFails, logFails, from);
    var here := if from in sendFails || from in logFails then [] else MapSeq(batches[0], LogOf(emailType));
    var rest := CampaignLogs(batches[1..], emailType, sendFails, logFails, from + 1);
    assert logs == here + rest;
    if i < |here| {
      assert logs[i].email == batches[0][i].email;
      DeliveredAt(batches, sendFails, logFails, from, 0, i);
    } else {
      assert logs[i] == rest[i - |here|];
      LogsOnlyForDelivered(batches[1..], emailType, sendFails, logFails, from + 1, i - |here|);
      DeliveredLater(batches, sendFails, logFails, from, logs[i].email);
    }
  }

  /** The confirmation dialog's `"registro"` has no template, so confirming
      it never sends anything. */
  lemma ConfirmDialogNeverSends(selected: seq<nat>, recipients: seq<Recipient>, sendFails: set<nat>, logFails: set<nat>,
                                encode: string -> string)
    ensures !SendCampaign(selected, ConfirmDialogType, recipients, sendFails, logFails, encode).Sent?
  {
  }
}

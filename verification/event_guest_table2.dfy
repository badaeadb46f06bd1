/** The guest table of one event, paged on the server: the rows of the
    event whose name matches the search, requested 20 at a time by an
    inclusive row range and sorted by company within the page, the per-row
    display rules, and the QR payloads of the event's guests. */
module EventGuestTable2 {
  import opened Basics
  import opened Seqs
  import opened Text
  import opened Tables
  import opened Consolidation
  import opened Paging
  import opened Qr
  import GuestTable

  /** Rows per page. */
  const PageSize: nat := 20

  /** An `event_guest` row as the table reads it: the row itself, its
      guest (`guest:guest_id(...)` with the guest's executive and company),
      and the executive and company joined directly from the row's own
      `executive_id` and `company_id`. */
  datatype EventGuestJoin = EventGuestJoin(
    row: EventGuestRow,
    guest: Guest,
    executive: Option<Executive>,
    company: Option<Company>)

  /** `.eq('event_id', eventId).ilike('name', '%q%')`: rows of the event
      whose own `name` column contains the query ignoring case. A null name
      never matches, not even the empty query. */
  predicate ServerMatch(j: EventGuestJoin, eventId: nat, query: string)
  {
    j.row.eventId == eventId && j.row.body.name.Some? && ContainsIgnoringCase(j.row.body.name.value, query)
  }

  function Matching(rows: seq<EventGuestJoin>, eventId: nat, query: string): (r: seq<EventGuestJoin>)
    ensures forall j :: j in r <==> j in rows && ServerMatch(j, eventId, query)
  {
    Filter(rows, (j: EventGuestJoin) => ServerMatch(j, eventId, query))
  }

  /** The sort key of a row, read on the `event_guest` row itself. */
  function SortKey(j: EventGuestJoin): string
  {
    CompanySortKey(j.row.body)
  }

  /** What the table holds after a fetch. */
  datatype View = View(rows: seq<EventGuestJoin>, totalPages: nat)

  /** `fetchGuests` for page `page`: the rows of range
      `[(page - 1) * 20, page * 20 - 1]` of the matching rows, sorted by
      `SortKey`, and `Math.ceil(count / 20)` pages where `count` is the
      number of matching rows. A failed read keeps the previous view. */
  function FetchPage(table: Fetch<EventGuestJoin>, eventId: nat, query: string, page: nat,
                     leq: (string, string) -> bool, previous: View): (v: View)
    requires TotalPreorder(leq)
    requires page >= 1
    ensures table.FetchFailed? ==> v == previous
    ensures table.Fetched? ==>
      var m := Matching(table.rows, eventId, query);
      && multiset(v.rows) == multiset(RangeRows(m, RangeFor(page, PageSize)))
      && v.totalPages == CeilDiv(|m|, PageSize)
    ensures table.Fetched? ==> |v.rows| <= PageSize && SortedBy(v.rows, SortKey, leq)
  {
    match table
    case FetchFailed => previous
    case Fetched(rows) =>
      var m := Matching(rows, eventId, query);
      RangeIsPage(m, page, PageSize);
      View(SortBy(RangeRows(m, RangeFor(page, PageSize)), SortKey, leq), CeilDiv(|m|, PageSize))
  }

  /** The range of page `page` spans exactly 20 row indices, starts at
      `(page - 1) * 20`, and the next page starts right after it. */
  lemma RangeArithmetic(page: nat)
    requires page >= 1
    ensures RangeFor(page, PageSize).from == (page - 1) * 20
    ensures RangeFor(page, PageSize).to == page * 20 - 1
    ensures RangeFor(page, PageSize).to - RangeFor(page, PageSize).from + 1 == 20
    ensures RangeFor(page + 1, PageSize).from == RangeFor(page, PageSize).to + 1
  {
    RangesAdjacent(page, PageSize);
  }

  /** Walking the pages `1..totalPages` shows every matching row exactly
      once: the requested ranges are the chunks of the matching rows. */
  lemma PagesCoverMatches(m: seq<EventGuestJoin>, k: nat)
    requires k < CeilDiv(|m|, PageSize)
    ensures RangeRows(m, RangeFor(k + 1, PageSize)) == Chunks(m, PageSize)[k]
  {
    RangeIsPage(m, k + 1, PageSize);
    ChunkIsPage(m, PageSize, k);
  }

  // ---------------------------------------------------------------------
  // Display

  /** The cells of one table row. */
  datatype Display = Display(
    name: string,
    company: string,
    position: string,
    email: string,
    userType: string,
    membershipType: string,
    registered: string,
    assisted: string,
    sessionTime: string)

  function YesNo(b: bool): (s: string)
    ensures s == "Sí" <==> b
  {
    if b then "Sí" else "No"
  }


  /** The cells of row `j`, taken from its guest: name, company, position
      and user type follow the executive/company rules, the membership type
      is the guest's own column, a null cell renders empty, and a zero or
      missing session time renders as `"N/A"`. The flag cells say `"Sí"`
      exactly when the flag is set, and a session-time cell other than
      `"N/A"` reads back as the stored time. */
  function DisplayRow(j: EventGuestJoin): (d: Display)
    ensures d.registered == "Sí" <==> j.row.body.registered
    ensures d.assisted == "Sí" <==> j.row.body.assisted
    ensures d.sessionTime == "N/A" <==> !Truthy(j.row.body.virtualSessionTime)
    ensures Truthy(j.row.body.virtualSessionTime) ==> ParseNat(d.sessionTime) == j.row.body.virtualSessionTime
  {
    var g := j.guest;
    Display(
      GuestTable.ListGuestName(g),
      if g.isClientCompany then GetOr(JoinedCompanyName(g.company), "") else GetOr(g.companyRazonSocial, ""),
      if g.isUser then GetOr(ExecField(g.executive, ExecPosition), "") else GetOr(g.position, ""),
      GetOr(g.email, ""),
      if g.isUser then GetOr(ExecField(g.executive, ExecUserType), "") else GetOr(g.tipoUsuario, ""),
      GetOr(g.tipoMembresia, ""),
      YesNo(j.row.body.registered),
      YesNo(j.row.body.assisted),
      match j.row.body.virtualSessionTime
      case None => "N/A"
      case Some(t) =>
        if t == 0 then "N/A"
        else
          DecimalRoundTrip(t);
          assert Decimal(t) != "N/A" by {
            assert IsDigitChar(Decimal(t)[0]);
          }
          Decimal(t))
  }

  /** The event view shows a guest the way the list view consolidates it —
      same name, company, position, e-mail and user type — except the
      membership type, which here is always the guest's own column, also
      for internal guests whose list view reads it from the executive. */
  lemma DisplayAgreesWithListView(j: EventGuestJoin, att: map<nat, Attendance.Entry>)
    ensures var d := DisplayRow(j);
      var c := Consolidate(j.guest, GuestTable.ListGuestName(j.guest), att);
      && d.name == c.name && d.company == c.company && d.position == c.position
      && d.email == c.email && d.userType == c.tipoUsuario
      && (!j.guest.isUser ==> d.membershipType == c.tipoMembresia)
      && d.membershipType == GetOr(j.guest.tipoMembresia, "")
  {
  }

  // ---------------------------------------------------------------------
  // QR codes

  /** The payload of row `j`'s QR code: `I-<executive id>` when the row is
      an internal guest's, `E-<event_guest id>` otherwise. An internal row
      without an executive or a company breaks the generation (`None`). */
  function QrPayload(j: EventGuestJoin): (r: Option<string>)
    ensures r.None? <==> j.row.body.isUser && (j.executive.None? || j.company.None?)
    ensures r.Some? && j.row.body.isUser ==> ParsePayload(r.value) == Scanned(Internal, Some(Decimal(j.executive.value.id)))
    ensures r.Some? && !j.row.body.isUser ==> ParsePayload(r.value) == Scanned(External, Some(Decimal(j.row.id)))
  {
    if j.row.body.isUser then
      match j.executive
      case None => None
      case Some(e) =>
        if j.company.None? then None
        else
          PayloadRoundTrip(Internal, e.id);
          Some(Payload(Internal, e.id))
    else
      PayloadRoundTrip(External, j.row.id);
      Some(Payload(External, j.row.id))
  }

  /** The rows whose codes `handleQRClick` generates: the matching rows of
      the event, or only row `only` among them. */
  function QrTargets(rows: seq<EventGuestJoin>, eventId: nat, query: string, only: Option<nat>): (r: seq<EventGuestJoin>)
    ensures forall j :: j in r <==> j in rows && ServerMatch(j, eventId, query) && (only.None? || j.row.id == only.value)
  {
    Filter(rows, (j: EventGuestJoin) => ServerMatch(j, eventId, query) && (only.None? || j.row.id == only.value))
  }

  /** `handleQRClick`: the payloads of the targets in query order; one
      broken row breaks the batch and a failed read produces nothing. */
  function QrBatch(table: Fetch<EventGuestJoin>, eventId: nat, query: string, only: Option<nat>): (r: Option<seq<string>>)
    ensures table.FetchFailed? ==> r.None?
    ensures table.Fetched? ==>
      var targets := QrTargets(table.rows, eventId, query, only);
      && (r.Some? <==> forall i :: 0 <= i < |targets| ==> QrPayload(targets[i]).Some?)
      && (r.Some? ==> |r.value| == |targets| && forall i :: 0 <= i < |targets| ==> Some(r.value[i]) == QrPayload(targets[i]))
  {
    match table
    case FetchFailed => None
    case Fetched(rows) => AllSome(QrTargets(rows, eventId, query, only), QrPayload)
  }
}

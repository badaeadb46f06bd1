/** The guest table of an invitation list inside a macro-event: the
    consolidated guests, the search and the registered/assisted filters,
    the page of 100 sorted by company, the page count, and the payloads of
    the check-in QR codes it generates. */
module GuestTable {
  import opened Basics
  import opened Seqs
  import opened Text
  import opened Tables
  import opened Attendance
  import opened Consolidation
  import opened Paging
  import opened Qr

  /** Rows per page. */
  const PageSize: nat := 100


  /** `x || ''` on a nullable string. */
  function OrEmpty(o: Option<string>): string
  {
    GetOr(o, "")
  }

  /** The display name: `` `${executive?.name} ${executive?.last_name || ''}`.trim() ``
      for internal guests (the parts are not trimmed, and a missing name
      prints as `"undefined"`), `name ?? ''` for external ones. An internal
      guest's name has no surrounding blanks and is never empty when the
      executive's name is missing. */
  function ListGuestName(g: Guest): (r: string)
    ensures !g.isUser ==> r == GetOr(g.name, "")
    ensures g.isUser ==> |r| == 0 || (!IsWhitespace(r[0]) && !IsWhitespace(r[|r| - 1]))
    ensures g.isUser && ExecField(g.executive, ExecName).None? ==> r != ""
  {
    if g.isUser then
      var s := Interp(ExecField(g.executive, ExecName)) + " " + OrEmpty(ExecField(g.executive, ExecLastName));
      assert ExecField(g.executive, ExecName).None? ==> !IsWhitespace(s[0]);
      Trim(s)
    else OrEmpty(g.name)
  }

  /** `fetchGuests`: the list's guests, consolidated in query order; a failed
      guest read leaves the table empty. */
  function FetchListGuests(guests: Fetch<Guest>, listId: nat, eventId: Option<nat>,
                           eventGuests: Fetch<EventGuestRow>, eventLists: Fetch<EventList>): (r: seq<GuestCore>)
    ensures guests.FetchFailed? ==> r == []
    ensures guests.Fetched? ==> |r| == |Filter(guests.rows, (g: Guest) => g.listId == listId)|
    ensures guests.Fetched? ==> forall i :: 0 <= i < |r| ==>
      var g := Filter(guests.rows, (g: Guest) => g.listId == listId)[i];
      r[i] == Consolidate(g, ListGuestName(g), AttendanceMap(eventId, listId, eventGuests, eventLists))
  {
    match guests
    case FetchFailed => []
    case Fetched(rows) =>
      var att := AttendanceMap(eventId, listId, eventGuests, eventLists);
      MapSeq(Filter(rows, (g: Guest) => g.listId == listId), (g: Guest) => Consolidate(g, ListGuestName(g), att))
  }

  /** An internal guest whose executive is missing shows as `"undefined"`:
      the interpolated name is `"undefined "` and the trim removes the
      space. */
  lemma MissingExecutiveName(g: Guest)
    requires g.isUser && g.executive.None?
    ensures ListGuestName(g) == "undefined"
  {
    TrimUnwraps("", "undefined", " ");
    assert "undefined" + " " + "" == "" + "undefined" + " ";
  }

  // ---------------------------------------------------------------------
  // Search and filters

  /** The guest matches the query: its normalised lower-cased name or
      company contains the normalised lower-cased query. `norm` stands for
      the NFD decomposition followed by the removal of combining marks. */
  predicate Matches(g: GuestCore, query: string, norm: string -> string)
  {
    var q := norm(Lower(query));
    Contains(norm(Lower(g.name)), q) || Contains(norm(Lower(g.company)), q)
  }

  /** The search box: an empty query filters nothing; otherwise the guests
      that match, in their order. */
  function Search(guests: seq<GuestCore>, query: string, norm: string -> string): (r: seq<GuestCore>)
    ensures query == "" ==> r == guests
    ensures forall g :: g in r <==> g in guests && (query == "" || Matches(g, query, norm))
    ensures multiset(r) <= multiset(guests)
  {
    if query == "" then guests else Filter(guests, (g: GuestCore) => Matches(g, query, norm))
  }

  function FlagValue(g: GuestCore, f: Flag): bool
  {
    match f
    case Assisted => g.assisted
    case Registered => g.registered
  }

  /** The registered or assisted filter: `'todos'` filters nothing, `'si'`
      and `'no'` keep the guests whose flag is set, respectively not set. */
  function TriFilter(guests: seq<GuestCore>, t: TriState, f: Flag): (r: seq<GuestCore>)
    ensures t.Todos? ==> r == guests
    ensures forall g :: g in r <==> g in guests && TriAccepts(t, FlagValue(g, f))
    ensures multiset(r) <= multiset(guests)
  {
    if t.Todos? then guests else Filter(guests, (g: GuestCore) => TriAccepts(t, FlagValue(g, f)))
  }

  /** The search and the two flag filters of the table, in the order they
      apply; the `end_date` range filters are taken as empty. */
  function Filtered(guests: seq<GuestCore>, query: string, norm: string -> string,
                    registered: TriState, assisted: TriState): (r: seq<GuestCore>)
    ensures forall g :: g in r <==>
      && g in guests
      && (query == "" || Matches(g, query, norm))
      && TriAccepts(registered, g.registered)
      && TriAccepts(assisted, g.assisted)
    ensures multiset(r) <= multiset(guests)
  {
    TriFilter(TriFilter(Search(guests, query, norm), registered, Registered), assisted, Assisted)
  }

  /** With every filter off the table shows all guests. */
  lemma NoFilterNoEffect(guests: seq<GuestCore>, norm: string -> string)
    ensures Filtered(guests, "", norm, Todos, Todos) == guests
  {
  }

  // ---------------------------------------------------------------------
  // The page

  /** What the table shows: the current page and the page count. */
  datatype View = View(visible: seq<GuestCore>, totalPages: nat)

  /** The visible-list effect: the current page of the filtered guests is
      cut first and sorted by company afterwards, so the sort only reorders
      rows within the page; the page count is that of the filtered list. */
  function ShowPage(guests: seq<GuestCore>, query: string, norm: string -> string,
                    registered: TriState, assisted: TriState, page: nat,
                    leq: (string, string) -> bool): (v: View)
    requires TotalPreorder(leq)
    ensures var f := Filtered(guests, query, norm, registered, assisted);
      && multiset(v.visible) == multiset(Page(f, page, PageSize))
      && v.totalPages == CeilDiv(|f|, PageSize)
    ensures |v.visible| <= PageSize
    ensures SortedBy(v.visible, (g: GuestCore) => g.company, leq)
  {
    var f := Filtered(guests, query, norm, registered, assisted);
    View(SortBy(Page(f, page, PageSize), (g: GuestCore) => g.company, leq), CeilDiv(|f|, PageSize))
  }

  /** The visible rows are exactly the rows of slice
      `[(page - 1) * 100, page * 100)` of the filtered list. */
  lemma VisibleIsSlice(guests: seq<GuestCore>, query: string, norm: string -> string,
                       registered: TriState, assisted: TriState, page: nat,
                       leq: (string, string) -> bool)
    requires TotalPreorder(leq)
    requires page >= 1
    ensures var f := Filtered(guests, query, norm, registered, assisted);
      var lo := Min((page - 1) * PageSize, |f|);
      var hi := Min(page * PageSize, |f|);
      multiset(ShowPage(guests, query, norm, registered, assisted, page, leq).visible) == multiset(f[lo..hi])
  {
    var f := Filtered(guests, query, norm, registered, assisted);
    PageIsSlice(f, page, PageSize);
  }

  /** The page a button click asks for; the pager does not clamp it. The
      "previous" button is disabled on page 1 and the "next" button on page
      `totalPages`. */
  function PageButton(current: nat, totalPages: nat, forward: bool): (r: Option<nat>)
    requires current >= 1
    ensures forward ==> (r.Some? <==> current != totalPages)
    ensures !forward ==> (r.Some? <==> current != 1)
    ensures r.Some? && forward ==> r.value == current + 1
    ensures r.Some? && !forward ==> r.value + 1 == current
    ensures r.Some? ==> r.value >= 1
  {
    if forward then (if current == totalPages then None else Some(current + 1))
    else if current == 1 then None
    else Some(current - 1)
  }

  /** With no rows the page count is 0, the "next" button stays enabled on
      page 1, and the page it leads to shows nothing. */
  lemma NextPastTheEnd(guests: seq<GuestCore>, query: string, norm: string -> string,
                       registered: TriState, assisted: TriState, leq: (string, string) -> bool)
    requires TotalPreorder(leq)
    requires Filtered(guests, query, norm, registered, assisted) == []
    ensures ShowPage(guests, query, norm, registered, assisted, 1, leq).totalPages == 0
    ensures PageButton(1, 0, true) == Some(2)
    ensures ShowPage(guests, query, norm, registered, assisted, 2, leq).visible == []
  {
  }

  // ---------------------------------------------------------------------
  // QR codes

  /** The payload of a guest's QR code: `I-<executive id>` for internal
      guests, `E-<guest id>` for external ones. An internal guest without
      an executive or a company breaks the generation (`None`). */
  function QrPayload(g: Guest): (r: Option<string>)
    ensures r.None? <==> g.isUser && (g.executive.None? || g.company.None?)
    ensures r.Some? && g.isUser ==> ParsePayload(r.value) == Scanned(Internal, Some(Decimal(g.executive.value.id)))
    ensures r.Some? && !g.isUser ==> ParsePayload(r.value) == Scanned(External, Some(Decimal(g.id)))
  {
    if g.isUser then
      match g.executive
      case None => None
      case Some(e) =>
        if g.company.None? then None
        else
          PayloadRoundTrip(Internal, e.id);
          Some(Payload(Internal, e.id))
    else
      PayloadRoundTrip(External, g.id);
      Some(Payload(External, g.id))
  }

  /** `handleQRClick`: the payloads of the list's guests (only guest `only`
      when one is given), in query order; one broken guest breaks the whole
      batch, and a failed read produces nothing. */
  function QrBatch(guests: Fetch<Guest>, listId: nat, only: Option<nat>): (r: Option<seq<string>>)
    ensures guests.FetchFailed? ==> r.None?
    ensures guests.Fetched? ==>
      var targets := QrTargets(guests.rows, listId, only);
      && (r.Some? <==> forall i :: 0 <= i < |targets| ==> QrPayload(targets[i]).Some?)
      && (r.Some? ==> |r.value| == |targets| && forall i :: 0 <= i < |targets| ==> Some(r.value[i]) == QrPayload(targets[i]))
  {
    match guests
    case FetchFailed => None
    case Fetched(rows) => AllSome(QrTargets(rows, listId, only), QrPayload)
  }

  /** The guests whose codes are generated: the list's guests, or only
      guest `only` of the list. */
  function QrTargets(rows: seq<Guest>, listId: nat, only: Option<nat>): (r: seq<Guest>)
    ensures forall g :: g in r <==> g in rows && g.listId == listId && (only.None? || g.id == only.value)
  {
    Filter(rows, (g: Guest) => g.listId == listId && (only.None? || g.id == only.value))
  }
}

/** The membership list: a search over the name and the company's
    `razon_social`, client-side pages of 10, a numbered pager, and the cells
    derived from a membership's flags. */
module Memberships {
  import opened Basics
  import opened Seqs
  import opened Text
  import opened Paging
  import opened Dates

  /** Memberships per page. */
  const ItemsPerPage: nat := 10

  /** A `membership` row with its company join, reduced to the columns the
      list reads. */
  datatype Membership = Membership(
    id: nat,
    name: Option<string>,
    companyRazonSocial: Option<string>,
    membershipType: string,
    area: string,
    areaScope: bool,
    fechaRenovacion: Option<string>,
    paymentMethod: string,
    signedProposal: bool,
    invoiceSent: bool)

  /** The page state: every membership loaded, the rows shown, the search
      text, the current page and the page count. */
  datatype ListState = ListState(
    all: seq<Membership>,
    shown: seq<Membership>,
    query: string,
    currentPage: nat,
    totalPages: nat)

  /** The state before anything is loaded. */
  const Initial: ListState := ListState([], [], "", 1, 1)

  /** `s?.toLowerCase().includes(lowerSearch)`: a missing value never
      matches. */
  predicate FieldMatches(field: Option<string>, query: string)
  {
    field.Some? && ContainsIgnoringCase(field.value, query)
  }

  /** The search condition of one membership. The query is lower-cased but
      not trimmed. */
  function MatchesQuery(query: string): Membership -> bool
  {
    (m: Membership) => FieldMatches(m.name, query) || FieldMatches(m.companyRazonSocial, query)
  }

  /** The search step of `applyFilters`: a blank query keeps every
      membership; otherwise exactly those whose name or company contains
      the query, ignoring case, in their loaded order. */
  function Search(all: seq<Membership>, query: string): (r: seq<Membership>)
    ensures Trim(query) == "" ==> r == all
    ensures Trim(query) != "" ==> forall m :: m in r <==> m in all && MatchesQuery(query)(m)
    ensures |r| <= |all|
  {
    if Trim(query) == "" then all else Filter(all, MatchesQuery(query))
  }

  /** `applyFilters`: the page count of the search result, and the current
      page of it. */
  function ApplyFilters(st: ListState): (r: ListState)
    ensures r.all == st.all && r.query == st.query && r.currentPage == st.currentPage
    ensures r.totalPages == CeilDiv(|Search(st.all, st.query)|, ItemsPerPage)
    ensures |r.shown| <= ItemsPerPage
    ensures r.shown == Page(Search(st.all, st.query), st.currentPage, ItemsPerPage)
  {
    var filtered := Search(st.all, st.query);
    st.(totalPages := CeilDiv(|filtered|, ItemsPerPage), shown := Page(filtered, st.currentPage, ItemsPerPage))
  }

  /** `fetchAllMemberships`: on success every membership is loaded and, until
      the search or the page changes, shown all at once; the page count is
      already that of 10 per page. A failed read changes nothing. */
  function Load(st: ListState, rows: Fetch<Membership>): (r: ListState)
    ensures rows.FetchFailed? ==> r == st
    ensures rows.Fetched? ==> r.all == rows.rows && r.shown == rows.rows
    ensures rows.Fetched? ==> r.totalPages == CeilDiv(|rows.rows|, ItemsPerPage)
    ensures r.query == st.query && r.currentPage == st.currentPage
  {
    match rows
    case FetchFailed => st
    case Fetched(data) => st.(all := data, shown := data, totalPages := CeilDiv(|data|, ItemsPerPage))
  }

  /** Typing in the search box: the effect re-applies the filters when the
      text changes. The current page is kept. */
  function SetQuery(st: ListState, query: string): (r: ListState)
    ensures query == st.query ==> r == st
    ensures query != st.query ==> r == ApplyFilters(st.(query := query))
  {
    if query == st.query then st else ApplyFilters(st.(query := query))
  }

  /** `handlePageChange`: a page outside `[1, totalPages]` is ignored; a
      new valid page is applied. Setting the page it is already on
      re-renders nothing. */
  function HandlePageChange(st: ListState, newPage: int): (r: ListState)
    ensures !(0 < newPage <= st.totalPages) ==> r == st
    ensures 0 < newPage <= st.totalPages && newPage != st.currentPage ==> r == ApplyFilters(st.(currentPage := newPage))
    ensures newPage == st.currentPage ==> r == st
  {
    var p := ChangePage(st.currentPage, newPage, st.totalPages);
    if p == st.currentPage then st else ApplyFilters(st.(currentPage := p))
  }

  /** The state after the filters were applied to it. */
  predicate Filtered(st: ListState)
  {
    st == ApplyFilters(st)
  }

  /** The page "Anterior" asks for: the one before, or the current page
      (which changes nothing) when the button is disabled on page 1. */
  function PreviousTarget(st: ListState): int
  {
    if st.currentPage == 1 then st.currentPage else st.currentPage - 1
  }

  /** The page "Siguiente" asks for: the one after, or the current page
      when the button is disabled on the last page. */
  function NextTarget(st: ListState): int
  {
    if st.currentPage == st.totalPages then st.currentPage else st.currentPage + 1
  }

  /** The "Anterior" button: one page back when there is a valid page
      before the current one, otherwise nothing changes. */
  function Previous(st: ListState): (r: ListState)
    ensures r == if 1 < st.currentPage <= st.totalPages + 1 then ApplyFilters(st.(currentPage := st.currentPage - 1)) else st
  {
    HandlePageChange(st, PreviousTarget(st))
  }

  /** The "Siguiente" button: one page on before the last page, otherwise
      nothing changes. */
  function Next(st: ListState): (r: ListState)
    ensures r == if st.currentPage < st.totalPages then ApplyFilters(st.(currentPage := st.currentPage + 1)) else st
  {
    HandlePageChange(st, NextTarget(st))
  }

  /** The filters read only the loaded rows, the query and the page. */
  lemma ApplyFiltersReads(a: ListState, b: ListState)
    requires a.all == b.all && a.query == b.query && a.currentPage == b.currentPage
    ensures ApplyFilters(a) == ApplyFilters(b)
    ensures Filtered(ApplyFilters(a))
  {
    assert ApplyFilters(a).(shown := a.shown, totalPages := a.totalPages) == a;
  }

  /** A page change from a filtered state keeps the page count. */
  lemma MoveTo(st: ListState, p: nat)
    requires Filtered(st) && 1 <= p <= st.totalPages && p != st.currentPage
    ensures HandlePageChange(st, p) == ApplyFilters(st.(currentPage := p))
    ensures HandlePageChange(st, p).currentPage == p
    ensures HandlePageChange(st, p).totalPages == st.totalPages
    ensures Filtered(HandlePageChange(st, p))
  {
    ApplyFiltersReads(st.(currentPage := p), st.(currentPage := p));
  }

  /** From a filtered state on a page in `[1, totalPages]`, the buttons move
      by one page inside that range, stop at the ends, and leave a
      filtered state. */
  lemma PagerStaysInRange(st: ListState)
    requires Filtered(st) && 1 <= st.currentPage <= st.totalPages
    ensures 1 <= Previous(st).currentPage <= st.totalPages && Filtered(Previous(st))
    ensures 1 <= Next(st).currentPage <= st.totalPages && Filtered(Next(st))
    ensures Previous(st).currentPage == if st.currentPage > 1 then st.currentPage - 1 else 1
    ensures Next(st).currentPage == if st.currentPage < st.totalPages then st.currentPage + 1 else st.totalPages
    ensures Previous(st).totalPages == st.totalPages && Next(st).totalPages == st.totalPages
  {
    if st.currentPage > 1 {
      MoveTo(st, st.currentPage - 1);
    }
    if st.currentPage < st.totalPages {
      MoveTo(st, st.currentPage + 1);
    }
  }

  /** Moving to another valid page and back restores the state. */
  lemma MoveAndBack(st: ListState, p: nat)
    requires Filtered(st) && 1 <= st.currentPage <= st.totalPages
    requires 1 <= p <= st.totalPages && p != st.currentPage
    ensures HandlePageChange(st, p).currentPage == p
    ensures HandlePageChange(st, p).totalPages == st.totalPages
    ensures HandlePageChange(HandlePageChange(st, p), st.currentPage) == st
  {
    MoveTo(st, p);
    var n := HandlePageChange(st, p);
    MoveTo(n, st.currentPage);
    ApplyFiltersReads(n.(currentPage := st.currentPage), st);
  }

  /** Away from the last page, "Anterior" undoes "Siguiente". */
  lemma NextThenPrevious(st: ListState)
    requires Filtered(st) && 1 <= st.currentPage < st.totalPages
    ensures Previous(Next(st)) == st
  {
    var cp := st.currentPage;
    var p := NextTarget(st);
    assert p == cp + 1;
    MoveAndBack(st, p);
    var n := HandlePageChange(st, p);
    assert n == Next(st);
    assert PreviousTarget(n) == cp;
  }

  /** Away from page 1, "Siguiente" undoes "Anterior". */
  lemma PreviousThenNext(st: ListState)
    requires Filtered(st) && 1 < st.currentPage <= st.totalPages
    ensures Next(Previous(st)) == st
  {
    var cp := st.currentPage;
    var p := PreviousTarget(st);
    assert p == cp - 1;
    MoveAndBack(st, p);
    var q := HandlePageChange(st, p);
    assert q == Previous(st);
    assert NextTarget(q) == cp;
  }

  /** A valid page shows a non-empty slice of the search result. */
  lemma ValidPageNotEmpty(st: ListState)
    requires Filtered(st) && 1 <= st.currentPage <= st.totalPages
    ensures st.shown != []
    ensures forall m :: m in st.shown ==> m in Search(st.all, st.query)
  {
    PageNonEmptyIff(Search(st.all, st.query), st.currentPage, ItemsPerPage);
  }

  /** The search does not go back to page 1: a search whose result has
      fewer pages than the current page number shows an empty page, though
      the result itself is not empty. */
  lemma NarrowedSearchShowsEmptyPage(st: ListState, query: string)
    requires query != st.query
    requires CeilDiv(|Search(st.all, query)|, ItemsPerPage) < st.currentPage
    ensures SetQuery(st, query).shown == []
    ensures SetQuery(st, query).currentPage == st.currentPage
  {
    PageNonEmptyIff(Search(st.all, query), st.currentPage, ItemsPerPage);
  }

  /** Right after loading, more than one page of memberships is shown at
      once. */
  lemma LoadShowsEverything(st: ListState, rows: seq<Membership>)
    requires |rows| > ItemsPerPage
    ensures |Load(st, Fetched(rows)).shown| > ItemsPerPage
    ensures Load(st, Fetched(rows)).totalPages > 1
  {
    assert Times(1, ItemsPerPage) == ItemsPerPage;
  }

  /** The "Renovación completa" cell: `'Sí'` exactly when the proposal is
      signed and the invoice sent. */
  function RenewalLabel(m: Membership): (r: string)
    ensures r == "Sí" || r == "No"
    ensures r == "Sí" <==> m.signedProposal && m.invoiceSent
  {
    if m.signedProposal && m.invoiceSent then "Sí" else "No"
  }

  /** The "Área" cell: the area only when it is in scope. */
  function AreaCell(m: Membership): (r: string)
    ensures m.areaScope ==> r == m.area
    ensures !m.areaScope ==> r == ""
  {
    if m.areaScope then m.area else ""
  }

  /** The "Fecha de renovación" cell. */
  function RenewalDateCell(m: Membership): (r: string)
    ensures r == "" <==> m.fechaRenovacion.None? || m.fechaRenovacion.value == ""
  {
    ConvertDate(m.fechaRenovacion)
  }
}

/** The attendance report of a macro-event: one row per `event_guest` of
    its events, the totals, the average connection time of the guests who
    attended, the company filter that recomputes the totals, the table
    filters and the pages of 10. */
module ReportList {
  import opened Basics
  import opened Seqs
  import opened Text
  import opened Tables
  import opened Paging

  /** The company filter value that selects every company. */
  const AllCompanies: string := "Todas"

  /** Rows per page of the report table. */
  const ReportPageSize: nat := 10

  /** An `event_guest` row with its guest join (`None` when `guest_id` is
      null). The guest's executive join selects no position. */
  datatype ReportRow = ReportRow(row: EventGuestRow, guest: Option<Guest>)

  /** A row of the report. `company` is `None` where the component holds
      `undefined`, and so is `tipoUsuario`. */
  datatype ReportGuest = ReportGuest(
    id: nat,
    name: string,
    company: Option<string>,
    position: string,
    registered: bool,
    assisted: bool,
    sessionTime: nat,
    tipoUsuario: Option<string>,
    tipoMembresia: string,
    eventName: string)

  /** The report: totals, the formatted average connection time and the
      rows. */
  datatype EventData = EventData(
    totalInvitados: nat,
    totalRegistrados: nat,
    totalAsistentes: nat,
    tiempoConexionPromedio: string,
    invitados: seq<ReportGuest>)

  // ---------------------------------------------------------------------
  // Average connection time

  /** `Math.floor(n / d)`, characterised without multiplication. */
  function FloorDiv(n: nat, d: nat): (q: nat)
    requires d > 0
    ensures Times(q, d) <= n < Times(q + 1, d)
  {
    TimesIsProduct(n / d, d);
    TimesIsProduct(n / d + 1, d);
    n / d
  }

  /** `Math.round(t / c)`: the integer nearest to `t / c`, halves rounded
      up, i.e. `floor((2t + c) / 2c)`. */
  function RoundDiv(t: nat, c: nat): (r: nat)
    requires c > 0
    ensures Times(r, 2 * c) <= 2 * t + c < Times(r, 2 * c) + 2 * c
  {
    FloorDiv(2 * t + c, 2 * c)
  }

  function IsAssisted(g: ReportGuest): bool { g.assisted }
  function IsRegistered(g: ReportGuest): bool { g.registered }
  function SessionTime(g: ReportGuest): nat { g.sessionTime }

  /** The average in minutes behind `calcularTiempoConexionPromedio`: the
      session times of the guests who attended, averaged and rounded; 0
      when nobody attended. */
  function AverageMinutes(guests: seq<ReportGuest>): (avg: nat)
    ensures Count(guests, IsAssisted) == 0 ==> avg == 0
    ensures var c := Count(guests, IsAssisted);
      var t := SumOf(Filter(guests, IsAssisted), SessionTime);
      c > 0 ==> Times(avg, 2 * c) <= 2 * t + c < Times(avg, 2 * c) + 2 * c
  {
    var attended := Filter(guests, IsAssisted);
    if |attended| > 0 then RoundDiv(SumOf(attended, SessionTime), |attended|) else 0
  }

  /** Only guests who attended count towards the average: dropping the
      others changes nothing. */
  lemma AverageIgnoresAbsent(guests: seq<ReportGuest>)
    ensures AverageMinutes(Filter(guests, IsAssisted)) == AverageMinutes(guests)
  {
    FilterIdempotent(guests, IsAssisted);
  }

  /** `formatTime(m)`: `"<h>h <min>m"` with `h = m div 60` and
      `min = m mod 60`, which reads back as the minutes it was made from. */
  function FormatTime(minutes: nat): (t: string)
    ensures ReadTime(t) == Some(minutes)
  {
    ReadTimeOf(minutes / 60, minutes % 60);
    Decimal(minutes / 60) + "h " + Decimal(minutes % 60) + "m"
  }

  /** Reads a `"<h>h <min>m"` text back as minutes. */
  function ReadTime(s: string): (r: Option<nat>)
  {
    var parts := Split(s, ' ');
    if |parts| != 2 then None else ReadUnits(parts[0], parts[1])
  }

  /** Reads `"<h>h"` and `"<min>m"` as minutes. */
  function ReadUnits(a: string, b: string): Option<nat>
  {
    if |a| == 0 || a[|a| - 1] != 'h' || |b| == 0 || b[|b| - 1] != 'm' then None
    else
      match (ParseNat(a[..|a| - 1]), ParseNat(b[..|b| - 1]))
      case (Some(h), Some(m)) => Some(h * 60 + m)
      case _ => None
  }

  /** `"<h>h <min>m"` reads back as `h * 60 + min`. */
  lemma ReadTimeOf(h: nat, m: nat)
    ensures ReadTime(Decimal(h) + "h " + Decimal(m) + "m") == Some(h * 60 + m)
  {
    DecimalRoundTrip(h);
    DecimalRoundTrip(m);
    ReadTimeDigits(Decimal(h), Decimal(m), h, m);
  }

  /** `"<hd>h <md>m"` with two runs of digits reads back as their values. */
  lemma ReadTimeDigits(hd: string, md: string, h: nat, m: nat)
    requires ParseNat(hd) == Some(h) && ParseNat(md) == Some(m)
    ensures ReadTime(hd + "h " + md + "m") == Some(h * 60 + m)
  {
    var hs := hd + "h";
    var ms := md + "m";
    SplitTime(hd, md);
    assert ReadUnits(hs, ms) == Some(h * 60 + m) by {
      assert hs[..|hs| - 1] == hd;
      assert ms[..|ms| - 1] == md;
    }
  }

  /** The blank is the only separator of `"<hd>h <md>m"`. */
  lemma SplitTime(hd: string, md: string)
    requires IsDigits(hd) && IsDigits(md)
    ensures Split(hd + "h " + md + "m", ' ') == [hd + "h", md + "m"]
  {
    var hs := hd + "h";
    var ms := md + "m";
    assert hd + "h " + md + "m" == hs + [' '] + ms;
    NoBlankInDigits(hd, 'h');
    NoBlankInDigits(md, 'm');
    SplitCons(hs, ' ', ms);
    assert Split(ms, ' ') == [ms];
  }

  lemma NoBlankInDigits(digits: string, unit: char)
    requires IsDigits(digits) && unit != ' '
    ensures ' ' !in digits + [unit]
  {
    forall k | 0 <= k < |digits + [unit]|
      ensures (digits + [unit])[k] != ' '
    {
      if k < |digits| {
        assert IsDigitChar(digits[k]);
      }
    }
  }

  // ---------------------------------------------------------------------
  // Building the report

  /** The totals and the average of a list of report rows. */
  function Summarize(guests: seq<ReportGuest>): (d: EventData)
    ensures d.invitados == guests && d.totalInvitados == |guests|
    ensures d.totalRegistrados == Count(guests, IsRegistered) <= d.totalInvitados
    ensures d.totalAsistentes == Count(guests, IsAssisted) <= d.totalInvitados
    ensures d.tiempoConexionPromedio == FormatTime(AverageMinutes(guests))
  {
    EventData(|guests|, Count(guests, IsRegistered), Count(guests, IsAssisted),
              FormatTime(AverageMinutes(guests)), guests)
  }

  /** `eventMap.get(id)`: the name of the event with that id (the last one
      when several share it). */
  function EventName(events: seq<Event>, id: nat): (r: Option<string>)
    ensures r.Some? <==> exists k :: 0 <= k < |events| && events[k].id == id
    ensures r.Some? ==> exists k :: 0 <= k < |events| && events[k].id == id && events[k].name == r.value
  {
    if |events| == 0 then None
    else if events[|events| - 1].id == id then Some(events[|events| - 1].name)
    else
      var r := EventName(events[..|events| - 1], id);
      assert forall k :: 0 <= k < |events| - 1 ==> events[..|events| - 1][k] == events[k];
      r
  }

  /** The report row of one `event_guest` row: the name from the executive
      (untrimmed, `"undefined"` for a missing part) for internal guests,
      else the guest's name when non-empty, else the row's own name; the
      company from the guest's company join for internal guests, else the
      guest's `company_razon_social` or `" "`; the position only for
      external rows (the executive position is not selected); a missing
      session time counts as 0. The row's id and flags are kept as they are,
      the event name is that of an event with the row's event id or `''`
      when there is none, and a company is missing only for internal
      guests. */
  function FormatGuest(r: ReportRow, events: seq<Event>): (g: ReportGuest)
    ensures g.id == r.row.id && g.registered == r.row.body.registered && g.assisted == r.row.body.assisted
    ensures g.eventName != "" ==> exists k :: 0 <= k < |events| && events[k].id == r.row.eventId && events[k].name == g.eventName
    ensures (forall k :: 0 <= k < |events| ==> events[k].id != r.row.eventId) ==> g.eventName == ""
    ensures r.row.body.isUser ==> g.position == ""
    ensures !r.row.body.isUser ==> g.position == GetOr(r.row.body.position, "")
    ensures g.company.None? ==> r.guest.Some? && r.guest.value.isUser
    ensures r.guest.None? ==> g.company == Some(" ") && g.tipoUsuario.None? && g.tipoMembresia == ""
  {
    var internal := r.guest.Some? && r.guest.value.isUser;
    ReportGuest(
      r.row.id,
      if internal then
        Interp(ExecField(r.guest.value.executive, ExecName)) + " " + Interp(ExecField(r.guest.value.executive, ExecLastName))
      else if r.guest.Some? && r.guest.value.name.Some? && r.guest.value.name.value != "" then r.guest.value.name.value
      else GetOr(r.row.body.name, ""),
      if internal then JoinedCompanyName(r.guest.value.company)
      else if r.guest.Some? && r.guest.value.companyRazonSocial.Some? && r.guest.value.companyRazonSocial.value != "" then
        r.guest.value.companyRazonSocial
      else Some(" "),
      if r.row.body.isUser then "" else GetOr(r.row.body.position, ""),
      r.row.body.registered,
      r.row.body.assisted,
      GetOr(r.row.body.virtualSessionTime, 0),
      if internal then ExecField(r.guest.value.executive, ExecUserType)
      else if r.guest.Some? then r.guest.value.tipoUsuario
      else None,
      if r.guest.Some? then GetOr(r.guest.value.tipoMembresia, "") else "",
      GetOr(EventName(events, r.row.eventId), ""))
  }

  /** The events of the macro-event. */
  function MacroEvents(events: seq<Event>, macroEventId: nat): (r: seq<Event>)
    ensures forall e :: e in r <==> e in events && e.macroEventId == macroEventId
  {
    Filter(events, (e: Event) => e.macroEventId == macroEventId)
  }

  /** The rows whose event is one of `mine`. */
  function RowsOfEvents(rows: seq<ReportRow>, mine: seq<Event>): (r: seq<ReportRow>)
    ensures forall x :: x in r <==> x in rows && exists k :: 0 <= k < |mine| && mine[k].id == x.row.eventId
  {
    var ids := MapSeq(mine, (e: Event) => e.id);
    Filter(rows, (x: ReportRow) => x.row.eventId in ids)
  }

  function ReportSortKey(r: ReportRow): string
  {
    CompanySortKey(r.row.body)
  }

  /** `fetchEventData`: nothing when a read fails or the macro-event has no
      events; otherwise the `event_guest` rows of its events, sorted by
      company (each row once) and formatted, with the totals over them. */
  function FetchEventData(events: Fetch<Event>, macroEventId: nat, rows: Fetch<ReportRow>,
                          leq: (string, string) -> bool): (d: Option<EventData>)
    requires TotalPreorder(leq)
    ensures d.None? <==> (events.FetchFailed? || |MacroEvents(events.rows, macroEventId)| == 0 || rows.FetchFailed?)
    ensures d.Some? ==>
      var mine := MacroEvents(events.rows, macroEventId);
      var selected := RowsOfEvents(rows.rows, mine);
      && |d.value.invitados| == |selected|
      && (forall i :: 0 <= i < |d.value.invitados| ==> exists x :: x in selected && d.value.invitados[i] == FormatGuest(x, mine))
      && (exists s :: multiset(s) == multiset(selected) && SortedBy(s, ReportSortKey, leq) && d.value.invitados == FormatAll(s, mine))
      && d.value == Summarize(d.value.invitados)
  {
    match events
    case FetchFailed => None
    case Fetched(evs) =>
      var mine := MacroEvents(evs, macroEventId);
      if |mine| == 0 then None
      else
        match rows
        case FetchFailed => None
        case Fetched(rs) =>
          Some(Summarize(SortedReport(RowsOfEvents(rs, mine), mine, leq)))
  }

  /** The report rows of `selected`: the rows reordered by company, each
      kept exactly as often as it occurs, then formatted. */
  function SortedReport(selected: seq<ReportRow>, mine: seq<Event>, leq: (string, string) -> bool): (f: seq<ReportGuest>)
    requires TotalPreorder(leq)
    ensures |f| == |selected|
    ensures forall i :: 0 <= i < |f| ==> exists x :: x in selected && f[i] == FormatGuest(x, mine)
    ensures exists s :: multiset(s) == multiset(selected) && SortedBy(s, ReportSortKey, leq) && f == FormatAll(s, mine)
  {
    var sorted := SortBy(selected, ReportSortKey, leq);
    SameMembers(sorted, selected);
    var f := FormatAll(sorted, mine);
    assert multiset(sorted) == multiset(selected) && SortedBy(sorted, ReportSortKey, leq) && f == FormatAll(sorted, mine);
    f
  }

  function FormatAll(rows: seq<ReportRow>, mine: seq<Event>): (f: seq<ReportGuest>)
    ensures |f| == |rows|
    ensures forall i :: 0 <= i < |rows| ==> f[i] == FormatGuest(rows[i], mine)
  {
    MapSeq(rows, (x: ReportRow) => FormatGuest(x, mine))
  }

  function RowRegistered(x: ReportRow): bool { x.row.body.registered }
  function RowAssisted(x: ReportRow): bool { x.row.body.assisted }

  /** Formatting keeps the number of registered and of attended rows. */
  lemma {:induction false} FormattedCounts(s: seq<ReportRow>, mine: seq<Event>)
    ensures Count(FormatAll(s, mine), IsRegistered) == Count(s, RowRegistered)
    ensures Count(FormatAll(s, mine), IsAssisted) == Count(s, RowAssisted)
  {
    if |s| > 0 {
      FormattedCounts(s[1..], mine);
      assert FormatAll(s, mine)[1..] == FormatAll(s[1..], mine);
    }
  }

  /** The report's totals are those of the macro-event's rows: every
      selected row, the registered ones and the attended ones, and every
      selected row has its report row. */
  lemma ReportTotals(events: seq<Event>, macroEventId: nat, rows: seq<ReportRow>, leq: (string, string) -> bool)
    requires TotalPreorder(leq)
    requires FetchEventData(Fetched(events), macroEventId, Fetched(rows), leq).Some?
    ensures var d := FetchEventData(Fetched(events), macroEventId, Fetched(rows), leq).value;
      var mine := MacroEvents(events, macroEventId);
      var selected := RowsOfEvents(rows, mine);
      && d.totalInvitados == |selected|
      && d.totalRegistrados == Count(selected, RowRegistered)
      && d.totalAsistentes == Count(selected, RowAssisted)
      && (forall x :: x in selected ==> FormatGuest(x, mine) in d.invitados)
  {
    var d := FetchEventData(Fetched(events), macroEventId, Fetched(rows), leq).value;
    var mine := MacroEvents(events, macroEventId);
    var selected := RowsOfEvents(rows, mine);
    var s :| multiset(s) == multiset(selected) && SortedBy(s, ReportSortKey, leq) && d.invitados == FormatAll(s, mine);
    FormattedCounts(s, mine);
    CountPermutation(s, selected, RowRegistered);
    CountPermutation(s, selected, RowAssisted);
    forall x | x in selected ensures FormatGuest(x, mine) in d.invitados {
      assert x in multiset(s);
      var j :| 0 <= j < |s| && s[j] == x;
      assert d.invitados[j] == FormatGuest(x, mine);
    }
  }

  /** Every counted guest belongs to one of the macro-event's events. */
  lemma OnlyMacroEventGuests(events: seq<Event>, macroEventId: nat, rows: seq<ReportRow>,
                             leq: (string, string) -> bool, i: nat)
    requires TotalPreorder(leq)
    requires var d := FetchEventData(Fetched(events), macroEventId, Fetched(rows), leq);
      d.Some? && i < |d.value.invitados|
    ensures var d := FetchEventData(Fetched(events), macroEventId, Fetched(rows), leq);
      exists x :: x in rows && x.row.id == d.value.invitados[i].id
        && exists e :: e in events && e.macroEventId == macroEventId && e.id == x.row.eventId
  {
    var d := FetchEventData(Fetched(events), macroEventId, Fetched(rows), leq);
    var mine := MacroEvents(events, macroEventId);
    var x :| x in RowsOfEvents(rows, mine) && d.value.invitados[i] == FormatGuest(x, mine);
    var k :| 0 <= k < |mine| && mine[k].id == x.row.eventId;
    assert mine[k] in mine;
  }

  // ---------------------------------------------------------------------
  // Filters and pages

  function CompanyIs(company: string): ReportGuest -> bool
  {
    (g: ReportGuest) => g.company == Some(company)
  }

  /** `filtrarPorEmpresa`: `"Todas"` keeps the report as it is; any other
      company keeps its rows only and recomputes every total on them. */
  function ByCompany(data: Option<EventData>, company: string): (r: Option<EventData>)
    ensures data.None? ==> r.None?
    ensures data.Some? && company == AllCompanies ==> r == data
    ensures data.Some? && company != AllCompanies ==>
      r == Some(Summarize(Filter(data.value.invitados, CompanyIs(company))))
  {
    match data
    case None => None
    case Some(d) =>
      if company == AllCompanies then data
      else Some(Summarize(Filter(d.invitados, CompanyIs(company))))
  }

  /** The recomputed totals of a company are the counts, over the whole
      report, of the rows of that company that are registered (attended). */
  lemma ByCompanyTotals(d: EventData, company: string)
    requires company != AllCompanies
    ensures var r := ByCompany(Some(d), company).value;
      && r.totalInvitados == Count(d.invitados, CompanyIs(company))
      && r.totalRegistrados == Count(d.invitados, (g: ReportGuest) => g.company == Some(company) && g.registered)
      && r.totalAsistentes == Count(d.invitados, (g: ReportGuest) => g.company == Some(company) && g.assisted)
  {
    CountFilter(d.invitados, CompanyIs(company), IsRegistered, (g: ReportGuest) => g.company == Some(company) && g.registered);
    CountFilter(d.invitados, CompanyIs(company), IsAssisted, (g: ReportGuest) => g.company == Some(company) && g.assisted);
  }

  /** The search of the report table: an empty query matches everything,
      otherwise the name or a non-empty company must contain it, ignoring
      case. */
  predicate SearchMatch(g: ReportGuest, query: string)
  {
    query == "" || ContainsIgnoringCase(g.name, query)
    || (g.company.Some? && g.company.value != "" && ContainsIgnoringCase(g.company.value, query))
  }

  /** `filtrarTabla`: the rows meeting the registration filter, the
      attendance filter and the search, all three. */
  function TableFilter(guests: seq<ReportGuest>, registered: TriState, attended: TriState, query: string): (r: seq<ReportGuest>)
    ensures forall g :: g in r <==>
      g in guests && TriAccepts(registered, g.registered) && TriAccepts(attended, g.assisted) && SearchMatch(g, query)
    ensures multiset(r) <= multiset(guests)
  {
    Filter(guests, (g: ReportGuest) => TriAccepts(registered, g.registered) && TriAccepts(attended, g.assisted) && SearchMatch(g, query))
  }

  /** `"Todos"`, `"Todos"` and an empty search leave the table as it is. */
  lemma NoTableFilter(guests: seq<ReportGuest>)
    ensures TableFilter(guests, Todos, Todos, "") == guests
  {
    FilterAll(guests, (g: ReportGuest) => TriAccepts(Todos, g.registered) && TriAccepts(Todos, g.assisted) && SearchMatch(g, ""));
  }

  /** The page the table shows and the page count. */
  datatype TablePage = TablePage(rows: seq<ReportGuest>, totalPages: nat)

  /** The rows of page `page` (slice `[(page - 1) * 10, page * 10)`) and
      `Math.ceil(n / 10)` pages; the pages `1..totalPages` are exactly the
      non-empty ones. */
  function ReportPage(guests: seq<ReportGuest>, page: nat): (p: TablePage)
    ensures |p.rows| <= ReportPageSize
    ensures page >= 1 ==> p.rows == guests[Min((page - 1) * 10, |guests|)..Min(page * 10, |guests|)]
    ensures p.totalPages == CeilDiv(|guests|, ReportPageSize)
    ensures p.rows != [] <==> 1 <= page <= p.totalPages
  {
    PageFacts(guests, page);
    TablePage(Page(guests, page, ReportPageSize), CeilDiv(|guests|, ReportPageSize))
  }

  lemma PageFacts(guests: seq<ReportGuest>, page: nat)
    ensures page >= 1 ==> Page(guests, page, ReportPageSize) == guests[Min((page - 1) * 10, |guests|)..Min(page * 10, |guests|)]
    ensures Page(guests, page, ReportPageSize) != [] <==> 1 <= page <= CeilDiv(|guests|, ReportPageSize)
  {
    if page >= 1 {
      PageIsSlice(guests, page, ReportPageSize);
    }
    PageNonEmptyIff(guests, page, ReportPageSize);
  }
}

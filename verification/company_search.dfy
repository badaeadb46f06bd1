/** The "Buscar empresa o invitado" filter: a dropdown whose options are up
    to five companies matching the search, ordered by `razon_social`,
    followed by up to five guest names matching it; choosing an option
    reports its name, choosing "Todos" reports `'all'`. */
module CompanySearch {
  import opened Basics
  import opened Seqs
  import opened Text

  /** Options of each kind the dropdown shows at most. */
  const Limit: nat := 5

  /** A `company` row as the dropdown reads it. */
  datatype Company = Company(id: nat, razonSocial: string)

  /** An option: a company from the table, or a guest name shown as if it
      were one. */
  datatype Selectable = CompanyOption(company: Company) | GuestOption(name: string)

  /** The text an option shows and reports. */
  function Label(s: Selectable): string
  {
    match s
    case CompanyOption(c) => c.razonSocial
    case GuestOption(n) => n
  }

  /** The dropdown state. */
  datatype Dropdown = Dropdown(isOpen: bool, search: string, options: seq<Selectable>, selected: Option<Selectable>)

  function RazonSocial(c: Company): string { c.razonSocial }

  /** The company filter: none for an empty search, else `razon_social`
      containing the search, ignoring case. */
  function CompanyMatches(search: string): Company -> bool
  {
    (c: Company) => search == "" || ContainsIgnoringCase(c.razonSocial, search)
  }

  /** The company query: the matching companies ordered by `razon_social`
      (under the database's collation `leq`), at most five; fewer only when
      fewer match, and no matching company left out sorts before one kept. */
  function CompanyQuery(table: seq<Company>, search: string, leq: (string, string) -> bool): (r: seq<Company>)
    requires TotalPreorder(leq)
    ensures |r| == Min(Limit, Count(table, CompanyMatches(search)))
    ensures forall c :: c in r ==> c in table && CompanyMatches(search)(c)
    ensures SortedBy(r, RazonSocial, leq)
    ensures forall c, i :: c in table && CompanyMatches(search)(c) && c !in r && 0 <= i < |r| ==>
      leq(RazonSocial(r[i]), RazonSocial(c))
  {
    var matching := SortBy(Filter(table, CompanyMatches(search)), RazonSocial, leq);
    SameMembers(matching, Filter(table, CompanyMatches(search)));
    TakeSorted(matching, Limit, RazonSocial, leq);
    Take(matching, Limit)
  }

  /** The guest filter `name.toLowerCase().includes(search.toLowerCase())`. */
  function NameMatches(search: string): string -> bool
  {
    (name: string) => ContainsIgnoringCase(name, search)
  }

  /** `guestsName.filter(...).slice(0, 5)`: the first five guest names
      that contain the search ignoring case, in their original order. */
  function GuestSuggestions(names: seq<string>, search: string): (r: seq<string>)
    ensures |r| <= Limit
    ensures r <= Filter(names, NameMatches(search))
    ensures |r| == Limit || r == Filter(names, NameMatches(search))
    ensures forall n :: n in r ==> n in names && ContainsIgnoringCase(n, search)
  {
    var matching := Filter(names, NameMatches(search));
    var r := Take(matching, Limit);
    assert forall n :: n in r ==> n in matching;
    r
  }

  /** With an empty search the suggestions are the first five names. */
  lemma EmptySearchFirstFive(names: seq<string>)
    ensures GuestSuggestions(names, "") == Take(names, Limit)
  {
    forall i | 0 <= i < |names| ensures NameMatches("")(names[i]) {
      ContainsTrivial(Lower(names[i]));
    }
    FilterAll(names, NameMatches(""));
  }

  function AsGuest(name: string): Selectable { GuestOption(name) }
  function AsCompany(c: Company): Selectable { CompanyOption(c) }

  /** The options of a search: the companies first, then the guest names. */
  function Options(companies: seq<Company>, guests: seq<string>): seq<Selectable>
  {
    MapSeq(companies, AsCompany) + MapSeq(guests, AsGuest)
  }

  /** `fetchCompanies`: on an error the options stay as they were;
      otherwise the companies the query returned come first, then the
      guest suggestions. */
  function FetchCompanies(d: Dropdown, companyData: Fetch<Company>, guestsName: seq<string>): (r: Dropdown)
    ensures companyData.FetchFailed? ==> r == d
    ensures companyData.Fetched? ==>
      r == d.(options := Options(companyData.rows, GuestSuggestions(guestsName, d.search)))
  {
    match companyData
    case FetchFailed => d
    case Fetched(data) => d.(options := Options(data, GuestSuggestions(guestsName, d.search)))
  }

  /** After a successful search every option shows a name that contains
      the search ignoring case, the companies come first and are at most
      five, and so are the guests. */
  lemma OptionsMatchSearch(d: Dropdown, table: seq<Company>, leq: (string, string) -> bool, guestsName: seq<string>)
    requires TotalPreorder(leq)
    ensures var r := FetchCompanies(d, Fetched(CompanyQuery(table, d.search, leq)), guestsName);
      && (forall i :: 0 <= i < |r.options| ==> ContainsIgnoringCase(Label(r.options[i]), d.search))
      && |r.options| <= 2 * Limit
    ensures var r := FetchCompanies(d, Fetched(CompanyQuery(table, d.search, leq)), guestsName);
      var n := |CompanyQuery(table, d.search, leq)|;
      && (forall i :: 0 <= i < n ==> r.options[i].CompanyOption?)
      && (forall i :: n <= i < |r.options| ==> r.options[i].GuestOption?)
  {
    var companies := CompanyQuery(table, d.search, leq);
    var guests := GuestSuggestions(guestsName, d.search);
    OptionsShowSearch(companies, guests, d.search);
  }

  /** Options built from matching companies and matching names all show
      the search, companies first. */
  lemma OptionsShowSearch(companies: seq<Company>, guests: seq<string>, search: string)
    requires forall c :: c in companies ==> CompanyMatches(search)(c)
    requires forall n :: n in guests ==> ContainsIgnoringCase(n, search)
    ensures forall i :: 0 <= i < |Options(companies, guests)| ==> ContainsIgnoringCase(Label(Options(companies, guests)[i]), search)
    ensures |Options(companies, guests)| == |companies| + |guests|
    ensures forall i :: 0 <= i < |companies| ==> Options(companies, guests)[i].CompanyOption?
    ensures forall i :: |companies| <= i < |Options(companies, guests)| ==> Options(companies, guests)[i].GuestOption?
  {
    var a := MapSeq(companies, AsCompany);
    var b := MapSeq(guests, AsGuest);
    var opts := Options(companies, guests);
    forall i | 0 <= i < |opts| ensures ContainsIgnoringCase(Label(opts[i]), search) {
      if i < |a| {
        assert opts[i] == CompanyOption(companies[i]);
        assert companies[i] in companies;
        if search == "" {
          ContainsTrivial(Lower(companies[i].razonSocial));
        }
      } else {
        assert opts[i] == GuestOption(guests[i - |a|]);
        assert guests[i - |a|] in guests;
      }
    }
  }

  /** `handleSelect`: the choice is remembered, its name is reported
      (`'all'` for "Todos", which is no option), and the dropdown closes. */
  function HandleSelect(d: Dropdown, choice: Option<Selectable>): (r: (Dropdown, string))
    ensures !r.0.isOpen
    ensures r.0 == d.(selected := choice, isOpen := false)
    ensures choice.None? ==> r.1 == "all"
    ensures choice.Some? ==> r.1 == Label(choice.value)
  {
    match choice
    case None => (d.(selected := None, isOpen := false), "all")
    case Some(s) => (d.(selected := choice, isOpen := false), Label(s))
  }

  /** Choosing an option of a search reports a name that contains the
      search; only "Todos" reports `'all'` without being an option. */
  lemma SelectedOptionMatches(d: Dropdown, table: seq<Company>, leq: (string, string) -> bool, guestsName: seq<string>, i: nat)
    requires TotalPreorder(leq)
    requires i < |FetchCompanies(d, Fetched(CompanyQuery(table, d.search, leq)), guestsName).options|
    ensures var r := FetchCompanies(d, Fetched(CompanyQuery(table, d.search, leq)), guestsName);
      ContainsIgnoringCase(HandleSelect(r, Some(r.options[i])).1, d.search)
  {
    OptionsMatchSearch(d, table, leq, guestsName);
  }
}

/** The attendance dictionary the guest tables build from `event_guest`
    rows, keyed by `guest_id`, and the choice of which one a table uses:
    for a single event the last row of a guest wins; for a whole list the
    flags of all the guest's rows are OR-ed and the first row's id kept. */
module Attendance {
  import opened Basics
  import opened Seqs
  import opened Tables

  /** The value stored per guest: `{ id, assisted, registered }`. */
  datatype Entry = Entry(id: nat, assisted: bool, registered: bool)

  /** The entry one `event_guest` row contributes on its own. */
  function EntryOf(r: EventGuestRow): Entry
  {
    Entry(r.id, r.body.assisted, r.body.registered)
  }

  /** The guest ids that occur in `rows`. */
  function GuestIds(rows: seq<EventGuestRow>): set<nat>
  {
    set k | 0 <= k < |rows| :: rows[k].body.guestId
  }

  /** Row `k` is the last row of its guest. */
  ghost predicate IsLastOfGuest(rows: seq<EventGuestRow>, k: int)
    requires 0 <= k < |rows|
  {
    forall j :: k < j < |rows| ==> rows[j].body.guestId != rows[k].body.guestId
  }

  /** Row `k` is the first row of its guest. */
  ghost predicate IsFirstOfGuest(rows: seq<EventGuestRow>, k: int)
    requires 0 <= k < |rows|
  {
    forall j :: 0 <= j < k ==> rows[j].body.guestId != rows[k].body.guestId
  }

  /** The two attendance flags of an `event_guest` row. */
  datatype Flag = Assisted | Registered

  function FlagOf(b: EventGuestBody, f: Flag): bool
  {
    match f
    case Assisted => b.assisted
    case Registered => b.registered
  }

  /** Some row of guest `g` has flag `f` set. */
  ghost predicate AnyRow(rows: seq<EventGuestRow>, g: nat, f: Flag)
  {
    exists k :: 0 <= k < |rows| && rows[k].body.guestId == g && FlagOf(rows[k].body, f)
  }

  lemma GuestIdsSnoc(rows: seq<EventGuestRow>)
    requires |rows| > 0
    ensures GuestIds(rows) == GuestIds(rows[..|rows| - 1]) + {rows[|rows| - 1].body.guestId}
  {
    var init := rows[..|rows| - 1];
    forall g | g in GuestIds(rows) ensures g in GuestIds(init) + {rows[|rows| - 1].body.guestId} {
      var k :| 0 <= k < |rows| && rows[k].body.guestId == g;
      if k < |rows| - 1 {
        assert init[k] == rows[k];
      }
    }
    forall g | g in GuestIds(init) ensures g in GuestIds(rows) {
      var k :| 0 <= k < |init| && init[k].body.guestId == g;
      assert rows[k] == init[k];
    }
  }

  /** The single-event reduction `map[item.guest_id] = {...}`: every guest
      of `rows` has an entry, and it is the one of the guest's last row. */
  function LastWins(rows: seq<EventGuestRow>): (m: map<nat, Entry>)
    ensures m.Keys == GuestIds(rows)
    ensures forall k :: 0 <= k < |rows| && IsLastOfGuest(rows, k) ==> m[rows[k].body.guestId] == EntryOf(rows[k])
  {
    if |rows| == 0 then map[]
    else
      var init := rows[..|rows| - 1];
      var last := rows[|rows| - 1];
      var m0 := LastWins(init);
      var m := m0[last.body.guestId := EntryOf(last)];
      LastWinsStep(rows, m0, m);
      m
  }

  /** One step of `LastWins`: appending a row keeps the contract. */
  lemma LastWinsStep(rows: seq<EventGuestRow>, m0: map<nat, Entry>, m: map<nat, Entry>)
    requires |rows| > 0
    requires m0.Keys == GuestIds(rows[..|rows| - 1])
    requires forall k :: 0 <= k < |rows| - 1 && IsLastOfGuest(rows[..|rows| - 1], k) ==> m0[rows[k].body.guestId] == EntryOf(rows[k])
    requires m == m0[rows[|rows| - 1].body.guestId := EntryOf(rows[|rows| - 1])]
    ensures m.Keys == GuestIds(rows)
    ensures forall k :: 0 <= k < |rows| && IsLastOfGuest(rows, k) ==> m[rows[k].body.guestId] == EntryOf(rows[k])
  {
    var n := |rows|;
    var init := rows[..n - 1];
    GuestIdsSnoc(rows);
    forall k | 0 <= k < n && IsLastOfGuest(rows, k)
      ensures m[rows[k].body.guestId] == EntryOf(rows[k])
    {
      if k < n - 1 {
        assert init[k] == rows[k];
        assert IsLastOfGuest(init, k);
      }
    }
  }

  /** The list-wide reduction: the first row of a guest creates its entry,
      every later row ORs its flags into it. */
  function OrMerge(rows: seq<EventGuestRow>): (m: map<nat, Entry>)
    ensures m.Keys == GuestIds(rows)
    ensures forall k :: 0 <= k < |rows| && IsFirstOfGuest(rows, k) ==> m[rows[k].body.guestId].id == rows[k].id
    ensures forall g :: g in m ==> (m[g].assisted <==> AnyRow(rows, g, Assisted))
    ensures forall g :: g in m ==> (m[g].registered <==> AnyRow(rows, g, Registered))
  {
    if |rows| == 0 then map[]
    else
      var init := rows[..|rows| - 1];
      var last := rows[|rows| - 1];
      var g := last.body.guestId;
      var m0 := OrMerge(init);
      GuestIdsSnoc(rows);
      var m :=
        if g in m0 then
          m0[g := Entry(m0[g].id, m0[g].assisted || last.body.assisted, m0[g].registered || last.body.registered)]
        else
          m0[g := EntryOf(last)];
      OrMergeStep(rows, m0, m);
      m
  }

  /** One step of `OrMerge`: appending a row keeps the contract. */
  lemma OrMergeStep(rows: seq<EventGuestRow>, m0: map<nat, Entry>, m: map<nat, Entry>)
    requires |rows| > 0
    requires m0.Keys == GuestIds(rows[..|rows| - 1])
    requires forall k :: 0 <= k < |rows| - 1 && IsFirstOfGuest(rows[..|rows| - 1], k) ==> m0[rows[k].body.guestId].id == rows[k].id
    requires forall g :: g in m0 ==> (m0[g].assisted <==> AnyRow(rows[..|rows| - 1], g, Assisted))
    requires forall g :: g in m0 ==> (m0[g].registered <==> AnyRow(rows[..|rows| - 1], g, Registered))
    requires var last := rows[|rows| - 1]; var g := last.body.guestId;
      m == if g in m0 then
             m0[g := Entry(m0[g].id, m0[g].assisted || last.body.assisted, m0[g].registered || last.body.registered)]
           else
             m0[g := EntryOf(last)]
    ensures m.Keys == GuestIds(rows)
    ensures forall k :: 0 <= k < |rows| && IsFirstOfGuest(rows, k) ==> m[rows[k].body.guestId].id == rows[k].id
    ensures forall g :: g in m ==> (m[g].assisted <==> AnyRow(rows, g, Assisted))
    ensures forall g :: g in m ==> (m[g].registered <==> AnyRow(rows, g, Registered))
  {
    OrMergeIds(rows, m0, m);
    OrMergeFlags(rows, m0, m);
  }

  /** Appending a row keeps one entry per guest, with the first row's id. */
  lemma OrMergeIds(rows: seq<EventGuestRow>, m0: map<nat, Entry>, m: map<nat, Entry>)
    requires |rows| > 0
    requires m0.Keys == GuestIds(rows[..|rows| - 1])
    requires forall k :: 0 <= k < |rows| - 1 && IsFirstOfGuest(rows[..|rows| - 1], k) ==> m0[rows[k].body.guestId].id == rows[k].id
    requires var last := rows[|rows| - 1]; var g := last.body.guestId;
      m == if g in m0 then
             m0[g := Entry(m0[g].id, m0[g].assisted || last.body.assisted, m0[g].registered || last.body.registered)]
           else
             m0[g := EntryOf(last)]
    ensures m.Keys == GuestIds(rows)
    ensures forall k :: 0 <= k < |rows| && IsFirstOfGuest(rows, k) ==> m[rows[k].body.guestId].id == rows[k].id
  {
    var n := |rows|;
    var init := rows[..n - 1];
    var last := rows[n - 1];
    GuestIdsSnoc(rows);
    forall k | 0 <= k < n && IsFirstOfGuest(rows, k)
      ensures m[rows[k].body.guestId].id == rows[k].id
    {
      if k < n - 1 {
        assert init[k] == rows[k];
        assert IsFirstOfGuest(init, k);
        if rows[k].body.guestId == last.body.guestId {
          assert last.body.guestId in m0;
        }
      }
    }
  }

  /** Appending a row ORs its flags into its guest's entry. */
  lemma OrMergeFlags(rows: seq<EventGuestRow>, m0: map<nat, Entry>, m: map<nat, Entry>)
    requires |rows| > 0
    requires m0.Keys == GuestIds(rows[..|rows| - 1])
    requires forall g :: g in m0 ==> (m0[g].assisted <==> AnyRow(rows[..|rows| - 1], g, Assisted))
    requires forall g :: g in m0 ==> (m0[g].registered <==> AnyRow(rows[..|rows| - 1], g, Registered))
    requires var last := rows[|rows| - 1]; var g := last.body.guestId;
      m == if g in m0 then
             m0[g := Entry(m0[g].id, m0[g].assisted || last.body.assisted, m0[g].registered || last.body.registered)]
           else
             m0[g := EntryOf(last)]
    ensures forall g :: g in m ==> (m[g].assisted <==> AnyRow(rows, g, Assisted))
    ensures forall g :: g in m ==> (m[g].registered <==> AnyRow(rows, g, Registered))
  {
    var last := rows[|rows| - 1];
    forall g | g in m
      ensures m[g].assisted <==> AnyRow(rows, g, Assisted)
      ensures m[g].registered <==> AnyRow(rows, g, Registered)
    {
      AnyRowSnoc(rows, g, Assisted);
      AnyRowSnoc(rows, g, Registered);
      if g != last.body.guestId {
        assert g in m0;
      }
    }
  }

  lemma AnyRowSnoc(rows: seq<EventGuestRow>, g: nat, f: Flag)
    requires |rows| > 0
    ensures AnyRow(rows, g, f) <==>
      AnyRow(rows[..|rows| - 1], g, f) || (rows[|rows| - 1].body.guestId == g && FlagOf(rows[|rows| - 1].body, f))
  {
    var init := rows[..|rows| - 1];
    if AnyRow(rows, g, f) {
      var k :| 0 <= k < |rows| && rows[k].body.guestId == g && FlagOf(rows[k].body, f);
      if k < |rows| - 1 {
        assert init[k] == rows[k];
      }
    }
    if AnyRow(init, g, f) {
      var k :| 0 <= k < |init| && init[k].body.guestId == g && FlagOf(init[k].body, f);
      assert rows[k] == init[k];
    }
  }

  /** The attendance dictionary a guest table builds. With a truthy
      `eventId` it reduces that event's rows last-wins; otherwise it ORs
      the rows of every event the list is invited to. Any failed read, and a
      list invited to no event, leave it empty. */
  function AttendanceMap(eventId: Option<nat>, listId: nat, eventGuests: Fetch<EventGuestRow>,
                         eventLists: Fetch<EventList>): (m: map<nat, Entry>)
    ensures eventGuests.FetchFailed? ==> m == map[]
    ensures Truthy(eventId) && eventGuests.Fetched? ==>
      m == LastWins(Filter(eventGuests.rows, (r: EventGuestRow) => r.eventId == eventId.value))
    ensures !Truthy(eventId) && eventLists.Fetched? && eventGuests.Fetched? ==>
      m == OrMerge(Filter(eventGuests.rows, (r: EventGuestRow) => r.eventId in ListEventIds(eventLists.rows, listId)))
    ensures !Truthy(eventId) && eventLists.FetchFailed? ==> m == map[]
  {
    if Truthy(eventId) then
      match eventGuests
      case FetchFailed => map[]
      case Fetched(rows) => LastWins(Filter(rows, (r: EventGuestRow) => r.eventId == eventId.value))
    else
      match eventLists
      case FetchFailed => map[]
      case Fetched(links) =>
        var ids := ListEventIds(links, listId);
        if |ids| == 0 then
          assert Filter(GetRows(eventGuests), (r: EventGuestRow) => r.eventId in ids) == [];
          map[]
        else
          match eventGuests
          case FetchFailed => map[]
          case Fetched(rows) => OrMerge(Filter(rows, (r: EventGuestRow) => r.eventId in ids))
  }

  function GetRows<T>(f: Fetch<T>): seq<T>
  {
    if f.Fetched? then f.rows else []
  }

  /** `event_list.select('event_id').eq('list_id', listId)`, as a list of ids. */
  function ListEventIds(links: seq<EventList>, listId: nat): (ids: seq<nat>)
    ensures forall e :: e in ids <==> exists k :: 0 <= k < |links| && links[k].listId == listId && links[k].eventId == e
  {
    if |links| == 0 then []
    else
      var rest := ListEventIds(links[1..], listId);
      assert forall k :: 1 <= k < |links| ==> links[k] == links[1..][k - 1];
      if links[0].listId == listId then [links[0].eventId] + rest else rest
  }
}

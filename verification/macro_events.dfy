/** The macro-event page: expanding a macro-event to show its events and
    lists, and the cascades that delete a list or an event together with
    the rows that refer to it. The database is an in-memory value; each
    statement that can fail is named by a `Step`, a failing statement
    changes nothing, and the statements after it in the same cascade are
    not run. */
module MacroEvents {
  import opened Basics
  import opened Seqs
  import opened Tables

  /** A `macro_event` row. */
  datatype MacroEvent = MacroEvent(id: nat, name: string)

  /** The tables the page touches. */
  datatype Db = Db(
    macroEvents: seq<MacroEvent>,
    events: seq<Event>,
    lists: seq<ListRow>,
    eventLists: seq<EventList>,
    guests: seq<Guest>,
    eventGuests: seq<EventGuestRow>)

  /** The database statements a cascade issues. */
  datatype Step =
    | SelectListGuests | DeleteListEventGuests | DeleteListGuests | DeleteListEventLists | DeleteListRow
    | DeleteEventGuests | DeleteEventEventLists | DeleteEventRow
    | DeleteMacroEventRow

  /** The page's state: what was loaded, which macro-event is expanded, and
      the events and lists shown under it. */
  datatype Page = Page(
    macroEvents: seq<MacroEvent>,
    events: seq<Event>,
    lists: seq<ListRow>,
    expanded: Option<nat>,
    shownEvents: seq<Event>,
    shownLists: seq<ListRow>)

  /** The database and the page after an action. */
  datatype Screen = Screen(db: Db, page: Page)

  // ---------------------------------------------------------------------
  // Expanding

  function EventOfMacro(id: nat): Event -> bool { (e: Event) => e.macroEventId == id }
  function ListOfMacro(id: nat): ListRow -> bool { (l: ListRow) => l.macroEventId == id }

  /** `toggleExpand`: the expanded macro-event collapses and keeps what is
      shown; any other expands and shows exactly its events and lists. */
  function ToggleExpand(p: Page, id: nat): (r: Page)
    ensures r.macroEvents == p.macroEvents && r.events == p.events && r.lists == p.lists
    ensures p.expanded == Some(id) ==> r.expanded.None? && r.shownEvents == p.shownEvents && r.shownLists == p.shownLists
    ensures p.expanded != Some(id) ==> r.expanded == Some(id)
    ensures p.expanded != Some(id) ==> forall e :: e in r.shownEvents <==> e in p.events && e.macroEventId == id
    ensures p.expanded != Some(id) ==> forall l :: l in r.shownLists <==> l in p.lists && l.macroEventId == id
  {
    if p.expanded == Some(id) then p.(expanded := None)
    else p.(expanded := Some(id), shownEvents := Filter(p.events, EventOfMacro(id)), shownLists := Filter(p.lists, ListOfMacro(id)))
  }

  /** Toggling twice from a collapsed macro-event collapses it again. */
  lemma ToggleTwice(p: Page, id: nat)
    requires p.expanded != Some(id)
    ensures ToggleExpand(ToggleExpand(p, id), id).expanded.None?
  {
  }

  // ---------------------------------------------------------------------
  // Deleting a list

  function GuestId(g: Guest): nat { g.id }

  /** `guest.select('id').eq('list_id', listId)`. */
  function ListGuestIds(guests: seq<Guest>, listId: nat): (ids: seq<nat>)
    ensures forall id :: id in ids <==> exists g :: g in guests && g.listId == listId && g.id == id
  {
    var mine := Filter(guests, InList(listId));
    var ids := MapSeq(mine, GuestId);
    assert forall k :: 0 <= k < |mine| ==> ids[k] == mine[k].id;
    ids
  }

  function InList(listId: nat): Guest -> bool { (g: Guest) => g.listId == listId }
  function NotInList(listId: nat): Guest -> bool { (g: Guest) => g.listId != listId }
  function NotOfGuests(ids: seq<nat>): EventGuestRow -> bool { (r: EventGuestRow) => r.body.guestId !in ids }
  function NotLinkedToList(listId: nat): EventList -> bool { (el: EventList) => el.listId != listId }
  function NotList(listId: nat): ListRow -> bool { (l: ListRow) => l.id != listId }

  /** The three deletions of a list's cascade, each applied on the result
      of the previous one. */
  function WithoutListEventGuests(db: Db, listId: nat): Db
  {
    db.(eventGuests := Filter(db.eventGuests, NotOfGuests(ListGuestIds(db.guests, listId))))
  }

  function WithoutListGuests(db: Db, listId: nat): Db
  {
    db.(guests := Filter(db.guests, NotInList(listId)))
  }

  function WithoutListEventLists(db: Db, listId: nat): Db
  {
    db.(eventLists := Filter(db.eventLists, NotLinkedToList(listId)))
  }

  /** None of the statements of a list's cascade fails. */
  predicate CascadeSucceeds(fails: set<Step>)
  {
    SelectListGuests !in fails && DeleteListEventGuests !in fails && DeleteListGuests !in fails && DeleteListEventLists !in fails
  }

  /** `deleteListRelated`: when the list has guests, the `event_guest` rows
      of those guests (in any event), then the guests, then the list's
      `event_list` rows are deleted, stopping at the first failure. A list
      without guests, or a failed guest read, deletes nothing. */
  function DeleteListRelated(db: Db, listId: nat, fails: set<Step>): (d: Db)
    ensures d.macroEvents == db.macroEvents && d.events == db.events && d.lists == db.lists
    ensures SelectListGuests in fails || |ListGuestIds(db.guests, listId)| == 0 ==> d == db
    ensures d == db
      || d == WithoutListEventGuests(db, listId)
      || d == WithoutListGuests(WithoutListEventGuests(db, listId), listId)
      || d == WithoutListEventLists(WithoutListGuests(WithoutListEventGuests(db, listId), listId), listId)
    ensures CascadeSucceeds(fails) && |ListGuestIds(db.guests, listId)| > 0 ==>
      d == WithoutListEventLists(WithoutListGuests(WithoutListEventGuests(db, listId), listId), listId)
  {
    if SelectListGuests in fails || |ListGuestIds(db.guests, listId)| == 0 then db
    else if DeleteListEventGuests in fails then db
    else
      var d1 := WithoutListEventGuests(db, listId);
      if DeleteListGuests in fails then d1
      else
        var d2 := WithoutListGuests(d1, listId);
        if DeleteListEventLists in fails then d2
        else WithoutListEventLists(d2, listId)
  }

  /** `deleteList`: a declined confirmation changes nothing; otherwise the
      cascade runs, and the list row is deleted whatever the cascade did —
      on success the list leaves the shown lists, and only it. */
  function DeleteList(confirmed: bool, s: Screen, listId: nat, fails: set<Step>): (r: Screen)
    ensures !confirmed ==> r == s
    ensures confirmed ==> r.db.(lists := s.db.lists) == DeleteListRelated(s.db, listId, fails)
    ensures confirmed && DeleteListRow !in fails ==>
      && (forall l :: l in r.db.lists <==> l in s.db.lists && l.id != listId)
      && (forall l :: l in r.page.shownLists <==> l in s.page.shownLists && l.id != listId)
    ensures DeleteListRow in fails ==> r.db.lists == s.db.lists && r.page == s.page
    ensures r.page.lists == s.page.lists && r.page.shownEvents == s.page.shownEvents
  {
    if !confirmed then s
    else
      var d := DeleteListRelated(s.db, listId, fails);
      if DeleteListRow in fails then s.(db := d)
      else Screen(d.(lists := Filter(d.lists, NotList(listId))), s.page.(shownLists := Filter(s.page.shownLists, NotList(listId))))
  }

  /** A list without guests keeps its `event_list` rows: the cascade stops
      before reaching them, and the list row is deleted anyway. */
  lemma EmptyListKeepsEventLinks(s: Screen, listId: nat, fails: set<Step>, el: EventList)
    requires |ListGuestIds(s.db.guests, listId)| == 0
    requires el in s.db.eventLists && el.listId == listId
    requires DeleteListRow !in fails
    ensures el in DeleteList(true, s, listId, fails).db.eventLists
    ensures forall l :: l in DeleteList(true, s, listId, fails).db.lists ==> l.id != listId
  {
  }

  /** The list page loads its lists once and deletion does not reload
      them, so expanding the macro-event again shows a deleted list. */
  lemma DeletedListReappears(s: Screen, listId: nat, l: ListRow, fails: set<Step>)
    requires l in s.page.lists && l.id == listId && s.page.expanded == Some(l.macroEventId)
    ensures var r := DeleteList(true, s, listId, fails);
      l in ToggleExpand(ToggleExpand(r.page, l.macroEventId), l.macroEventId).shownLists
  {
  }

  // ---------------------------------------------------------------------
  // Referential integrity

  predicate HasGuest(guests: seq<Guest>, id: nat) { exists g :: g in guests && g.id == id }
  predicate HasEvent(events: seq<Event>, id: nat) { exists e :: e in events && e.id == id }
  predicate HasList(lists: seq<ListRow>, id: nat) { exists l :: l in lists && l.id == id }

  /** Every reference between the rows points at an existing row. */
  ghost predicate Integrity(db: Db)
  {
    && (forall r :: r in db.eventGuests ==> HasGuest(db.guests, r.body.guestId) && HasEvent(db.events, r.eventId))
    && (forall el :: el in db.eventLists ==> HasList(db.lists, el.listId) && HasEvent(db.events, el.eventId))
    && (forall g :: g in db.guests ==> HasList(db.lists, g.listId))
  }

  /** Deleting a list whose cascade runs to the end leaves no reference
      to the list or to its guests behind. A list without guests is not
      covered: its `event_list` rows stay (`EmptyListKeepsEventLinks`). */
  lemma DeleteListKeepsIntegrity(s: Screen, listId: nat)
    requires Integrity(s.db)
    requires |ListGuestIds(s.db.guests, listId)| > 0
    ensures Integrity(DeleteList(true, s, listId, {}).db)
  {
    var db := s.db;
    var d := DeleteList(true, s, listId, {}).db;
    assert d == WithoutListEventLists(WithoutListGuests(WithoutListEventGuests(db, listId), listId), listId)
      .(lists := Filter(db.lists, NotList(listId)));
    ListCascadeGuestRefs(db, listId, d);
    ListCascadeListRefs(db, listId, d);
  }

  /** After the list's cascade every `event_guest` row still has its
      guest and event. */
  lemma ListCascadeGuestRefs(db: Db, listId: nat, d: Db)
    requires Integrity(db)
    requires d.events == db.events
    requires d.guests == Filter(db.guests, NotInList(listId))
    requires d.eventGuests == Filter(db.eventGuests, NotOfGuests(ListGuestIds(db.guests, listId)))
    ensures forall r :: r in d.eventGuests ==> HasGuest(d.guests, r.body.guestId) && HasEvent(d.events, r.eventId)
  {
    var ids := ListGuestIds(db.guests, listId);
    forall r | r in d.eventGuests ensures HasGuest(d.guests, r.body.guestId) {
      var g :| g in db.guests && g.id == r.body.guestId;
      assert r.body.guestId !in ids;
      assert g.listId != listId;
      assert g in d.guests;
    }
  }

  /** After the list's cascade every `event_list` row and every guest
      still has its list. */
  lemma ListCascadeListRefs(db: Db, listId: nat, d: Db)
    requires Integrity(db)
    requires d.events == db.events
    requires d.lists == Filter(db.lists, NotList(listId))
    requires d.guests == Filter(db.guests, NotInList(listId))
    requires d.eventLists == Filter(db.eventLists, NotLinkedToList(listId))
    ensures forall el :: el in d.eventLists ==> HasList(d.lists, el.listId) && HasEvent(d.events, el.eventId)
    ensures forall g :: g in d.guests ==> HasList(d.lists, g.listId)
  {
    forall el | el in d.eventLists ensures HasList(d.lists, el.listId) {
      KeptListFound(db.lists, listId, el.listId);
    }
    forall g | g in d.guests ensures HasList(d.lists, g.listId) {
      KeptListFound(db.lists, listId, g.listId);
    }
  }

  /** A list other than the deleted one is still found. */
  lemma KeptListFound(lists: seq<ListRow>, listId: nat, id: nat)
    requires HasList(lists, id) && id != listId
    ensures HasList(Filter(lists, NotList(listId)), id)
  {
    var l :| l in lists && l.id == id;
    assert l in Filter(lists, NotList(listId));
  }

  // ---------------------------------------------------------------------
  // Deleting an event

  function NotOfEvent(eventId: nat): EventGuestRow -> bool { (r: EventGuestRow) => r.eventId != eventId }
  function NotLinkedToEvent(eventId: nat): EventList -> bool { (el: EventList) => el.eventId != eventId }
  function NotEvent(eventId: nat): Event -> bool { (e: Event) => e.id != eventId }

  /** `deleteEventRelated`: the event's `event_guest` rows, then its
      `event_list` rows, stopping at the first failure. */
  function DeleteEventRelated(db: Db, eventId: nat, fails: set<Step>): (d: Db)
    ensures d.macroEvents == db.macroEvents && d.events == db.events && d.lists == db.lists && d.guests == db.guests
    ensures DeleteEventGuests in fails ==> d == db
    ensures DeleteEventGuests !in fails ==>
      forall r :: r in d.eventGuests <==> r in db.eventGuests && r.eventId != eventId
    ensures DeleteEventGuests !in fails && DeleteEventEventLists !in fails ==>
      forall el :: el in d.eventLists <==> el in db.eventLists && el.eventId != eventId
    ensures DeleteEventEventLists in fails ==> d.eventLists == db.eventLists
  {
    if DeleteEventGuests in fails then db
    else
      var d1 := db.(eventGuests := Filter(db.eventGuests, NotOfEvent(eventId)));
      if DeleteEventEventLists in fails then d1
      else d1.(eventLists := Filter(db.eventLists, NotLinkedToEvent(eventId)))
  }

  /** `deleteEvent`: like `deleteList`, for an event. */
  function DeleteEvent(confirmed: bool, s: Screen, eventId: nat, fails: set<Step>): (r: Screen)
    ensures !confirmed ==> r == s
    ensures confirmed ==> r.db.(events := s.db.events) == DeleteEventRelated(s.db, eventId, fails)
    ensures confirmed && DeleteEventRow !in fails ==>
      && (forall e :: e in r.db.events <==> e in s.db.events && e.id != eventId)
      && (forall e :: e in r.page.shownEvents <==> e in s.page.shownEvents && e.id != eventId)
    ensures DeleteEventRow in fails ==> r.db.events == s.db.events && r.page == s.page
    ensures r.page.events == s.page.events && r.page.shownLists == s.page.shownLists
  {
    if !confirmed then s
    else
      var d := DeleteEventRelated(s.db, eventId, fails);
      if DeleteEventRow in fails then s.(db := d)
      else Screen(d.(events := Filter(d.events, NotEvent(eventId))), s.page.(shownEvents := Filter(s.page.shownEvents, NotEvent(eventId))))
  }

  /** Deleting an event whose cascade runs to the end leaves no reference
      to it behind. */
  lemma DeleteEventKeepsIntegrity(s: Screen, eventId: nat)
    requires Integrity(s.db)
    ensures Integrity(DeleteEvent(true, s, eventId, {}).db)
  {
    var db := s.db;
    var d := DeleteEvent(true, s, eventId, {}).db;
    forall r | r in d.eventGuests ensures HasGuest(d.guests, r.body.guestId) && HasEvent(d.events, r.eventId) {
      var e :| e in db.events && e.id == r.eventId;
      assert e in d.events;
    }
    forall el | el in d.eventLists ensures HasList(d.lists, el.listId) && HasEvent(d.events, el.eventId) {
      var e :| e in db.events && e.id == el.eventId;
      assert e in d.events;
    }
  }

  // ---------------------------------------------------------------------
  // Deleting a macro-event

  function NotMacro(id: nat): MacroEvent -> bool { (m: MacroEvent) => m.id != id }

  /** `deleteMacroEvent`: only the `macro_event` row is deleted, and on
      success it leaves the page's list; its events and lists are left in
      place. */
  function DeleteMacroEvent(confirmed: bool, s: Screen, id: nat, fails: set<Step>): (r: Screen)
    ensures !confirmed || DeleteMacroEventRow in fails ==> r == s
    ensures confirmed && DeleteMacroEventRow !in fails ==>
      && (forall m :: m in r.db.macroEvents <==> m in s.db.macroEvents && m.id != id)
      && (forall m :: m in r.page.macroEvents <==> m in s.page.macroEvents && m.id != id)
    ensures r.db.events == s.db.events && r.db.lists == s.db.lists
  {
    if !confirmed || DeleteMacroEventRow in fails then s
    else Screen(s.db.(macroEvents := Filter(s.db.macroEvents, NotMacro(id))),
                s.page.(macroEvents := Filter(s.page.macroEvents, NotMacro(id))))
  }
}

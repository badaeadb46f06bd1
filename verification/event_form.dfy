/** The event form's submit: an existing event is updated; a new event is
    inserted and, when the form was opened as a copy of another event, that
    event's `event_guest` rows are copied onto the new event. Also the rule
    that decides when the Zoom webinar field is shown. */
module EventForm {
  import opened Basics
  import opened Seqs
  import opened Tables

  /** The choices of the "Modalidad" select. */
  const EventTypeOptions: seq<string> := ["Presencial", "Virtual", "Híbrido"]

  /** The `event` record the form submits. */
  datatype EventFields = EventFields(
    name: string,
    eventType: string,
    zoomWebinar: string,
    dateHour: string,
    place: string,
    registerOpen: bool,
    macroEventId: string)

  /** An `event_guest` row to insert: every column but the `id`, which the
      database assigns. */
  datatype NewEventGuest = NewEventGuest(eventId: nat, body: EventGuestBody)

  /** The writes the submit issues, in order. */
  datatype Write =
    | UpdateEvent(id: nat, fields: EventFields)
    | InsertEvent(fields: EventFields)
    | InsertGuests(rows: seq<NewEventGuest>)

  /** What one submit does: its writes, whether it goes back to the
      macro-event page, and whether it stops with a `TypeError` (reading the
      id of a new event whose insert failed). */
  datatype Submitted = Submitted(writes: seq<Write>, navigated: bool, crashed: bool)

  /** The rows of event `id`. */
  function OfEvent(id: nat): EventGuestRow -> bool
  {
    (g: EventGuestRow) => g.eventId == id
  }

  /** `select('*').eq('event_id', copyEventId)` on `event_guest`. */
  function SourceRows(table: seq<EventGuestRow>, copyEventId: nat): (r: seq<EventGuestRow>)
    ensures forall g :: g in r <==> g in table && g.eventId == copyEventId
  {
    Filter(table, OfEvent(copyEventId))
  }

  /** `guests.map(({ id, ...guest }) => ({ ...guest, event_id: newEvent.id }))`. */
  function CopyRows(rows: seq<EventGuestRow>, newId: nat): (r: seq<NewEventGuest>)
    ensures |r| == |rows|
    ensures forall i :: 0 <= i < |rows| ==> r[i].eventId == newId && r[i].body == rows[i].body
  {
    if |rows| == 0 then [] else [NewEventGuest(newId, rows[0].body)] + CopyRows(rows[1..], newId)
  }

  /** The copy step of a new event: nothing when the form is not a copy;
      stop when the source rows cannot be read; no insert when there are
      none; otherwise the insert of the copies, which crashes when the new
      event's id is missing. The first flag says whether the submit goes
      on, the second whether it crashed. At most one insert is made: of the
      source rows, re-pointed at the new event, exactly when they were read,
      there is one, and the new event has an id. */
  function CopyStep(copyEventId: Option<nat>, newEvent: Option<nat>, eventGuests: Fetch<EventGuestRow>,
                    copyFails: bool): (r: (seq<Write>, bool, bool))
    ensures |r.0| <= 1
    ensures !Truthy(copyEventId) ==> r == ([], true, false)
    ensures r.0 != [] <==>
      Truthy(copyEventId) && eventGuests.Fetched? && SourceRows(eventGuests.rows, copyEventId.value) != [] && newEvent.Some?
    ensures r.0 != [] ==>
      r.0[0] == InsertGuests(CopyRows(SourceRows(eventGuests.rows, copyEventId.value), newEvent.value))
    ensures r.2 <==>
      Truthy(copyEventId) && eventGuests.Fetched? && SourceRows(eventGuests.rows, copyEventId.value) != [] && newEvent.None?
    ensures r.2 ==> !r.1
    ensures Truthy(copyEventId) ==> (r.1 <==> CopyReadAndStored(copyEventId.value, newEvent, eventGuests, copyFails))
  {
    if !Truthy(copyEventId) then ([], true, false)
    else match eventGuests
      case FetchFailed => ([], false, false)
      case Fetched(table) =>
        var rows := SourceRows(table, copyEventId.value);
        if |rows| == 0 then ([], true, false)
        else if newEvent.None? then ([], false, true)
        else ([InsertGuests(CopyRows(rows, newEvent.value))], !copyFails, false)
  }

  /** `handleSubmit`. `newEvent` is the id the insert returns (`None` when
      it fails, which is only logged), `eventGuests` the read of the
      `event_guest` table, and the flags say which writes fail. */
  function HandleSubmit(f: EventFields, eventId: Option<nat>, copyEventId: Option<nat>, newEvent: Option<nat>,
                        eventGuests: Fetch<EventGuestRow>, updateFails: bool, copyFails: bool): (s: Submitted)
    ensures Truthy(eventId) ==> s == Submitted([UpdateEvent(eventId.value, f)], !updateFails, false)
    ensures !Truthy(eventId) ==> |s.writes| >= 1 && s.writes[0] == InsertEvent(f) && |s.writes| <= 2
    ensures forall w :: w in s.writes && w.InsertGuests? ==> !Truthy(eventId) && Truthy(copyEventId)
  {
    if Truthy(eventId) then Submitted([UpdateEvent(eventId.value, f)], !updateFails, false)
    else
      var (copies, goOn, crashed) := CopyStep(copyEventId, newEvent, eventGuests, copyFails);
      Submitted([InsertEvent(f)] + copies, goOn, crashed)
  }

  /** Guests are inserted exactly when a new event is created as a copy,
      the source rows were read, there is at least one, and the new event
      has an id; the inserted rows are then the source rows, in order, with
      the new event's id and every other column unchanged. */
  lemma CopiedGuests(f: EventFields, eventId: Option<nat>, copyEventId: Option<nat>, newEvent: Option<nat>,
                     eventGuests: Fetch<EventGuestRow>, updateFails: bool, copyFails: bool)
    ensures var s := HandleSubmit(f, eventId, copyEventId, newEvent, eventGuests, updateFails, copyFails);
      |s.writes| == 2 <==>
        !Truthy(eventId) && Truthy(copyEventId) && eventGuests.Fetched? && newEvent.Some?
        && SourceRows(eventGuests.rows, copyEventId.value) != []
    ensures var s := HandleSubmit(f, eventId, copyEventId, newEvent, eventGuests, updateFails, copyFails);
      |s.writes| == 2 ==>
        s.writes[1] == InsertGuests(CopyRows(SourceRows(eventGuests.rows, copyEventId.value), newEvent.value))
  {
  }

  /** A copy whose source has no rows inserts only the event and goes back
      to the macro-event page. */
  lemma EmptySourceNoInsert(f: EventFields, copyEventId: Option<nat>, newEvent: Option<nat>,
                            table: seq<EventGuestRow>, copyFails: bool)
    requires Truthy(copyEventId) && SourceRows(table, copyEventId.value) == []
    ensures HandleSubmit(f, None, copyEventId, newEvent, Fetched(table), false, copyFails)
         == Submitted([InsertEvent(f)], true, false)
  {
  }

  /** The source rows were read, and either there are none or the new
      event has an id and the copies were stored. */
  predicate CopyReadAndStored(copyEventId: nat, newEvent: Option<nat>, eventGuests: Fetch<EventGuestRow>, copyFails: bool)
  {
    eventGuests.Fetched? && (SourceRows(eventGuests.rows, copyEventId) == [] || (newEvent.Some? && !copyFails))
  }

  /** The submit navigates unless a write or read it depends on failed:
      the update, the read of the source rows, the insert of the copies, or
      the new event's id when there are rows to copy. A failed event insert
      without a copy still navigates. */
  lemma NavigatesUnlessFailed(f: EventFields, eventId: Option<nat>, copyEventId: Option<nat>, newEvent: Option<nat>,
                              eventGuests: Fetch<EventGuestRow>, updateFails: bool, copyFails: bool)
    ensures Truthy(eventId) ==>
      (HandleSubmit(f, eventId, copyEventId, newEvent, eventGuests, updateFails, copyFails).navigated <==> !updateFails)
    ensures !Truthy(eventId) ==>
      (HandleSubmit(f, eventId, copyEventId, newEvent, eventGuests, updateFails, copyFails).navigated <==>
        (!Truthy(copyEventId) || CopyReadAndStored(copyEventId.value, newEvent, eventGuests, copyFails)))
    ensures var s := HandleSubmit(f, eventId, copyEventId, newEvent, eventGuests, updateFails, copyFails);
      s.crashed ==> s.writes == [InsertEvent(f)] && !s.navigated
  {
  }

  /** The table after an insert: each new row gets the next id from
      `firstId` on. */
  function Stored(news: seq<NewEventGuest>, firstId: nat): (rows: seq<EventGuestRow>)
    ensures |rows| == |news|
    ensures forall i :: 0 <= i < |news| ==> rows[i].eventId == news[i].eventId && rows[i].body == news[i].body
  {
    if |news| == 0 then []
    else [EventGuestRow(firstId, news[0].eventId, news[0].body)] + Stored(news[1..], firstId + 1)
  }

  function RowBody(g: EventGuestRow): EventGuestBody { g.body }

  /** The guest data of some rows, in order. */
  function Bodies(rows: seq<EventGuestRow>): seq<EventGuestBody>
  {
    MapSeq(rows, RowBody)
  }

  /** The stored copies all belong to the new event and carry the
      source rows' data, in order. */
  lemma StoredCopies(rows: seq<EventGuestRow>, src: nat, newId: nat, firstId: nat)
    requires src != newId
    ensures Filter(Stored(CopyRows(rows, newId), firstId), OfEvent(newId)) == Stored(CopyRows(rows, newId), firstId)
    ensures Filter(Stored(CopyRows(rows, newId), firstId), OfEvent(src)) == []
    ensures Bodies(Stored(CopyRows(rows, newId), firstId)) == Bodies(rows)
  {
    var stored := Stored(CopyRows(rows, newId), firstId);
    assert Filter(stored, OfEvent(newId)) == stored by {
      StoredRows(rows, newId, firstId);
      FilterAll(stored, OfEvent(newId));
    }
    assert Filter(stored, OfEvent(src)) == [] by {
      StoredRows(rows, newId, firstId);
      FilterNone(stored, OfEvent(src));
    }
    assert Bodies(stored) == Bodies(rows) by {
      StoredRows(rows, newId, firstId);
    }
  }

  /** Each stored copy belongs to the new event and has the data of the
      source row at its position. */
  lemma StoredRows(rows: seq<EventGuestRow>, newId: nat, firstId: nat)
    ensures var stored := Stored(CopyRows(rows, newId), firstId);
      |stored| == |rows| && forall i :: 0 <= i < |stored| ==> stored[i].eventId == newId && stored[i].body == rows[i].body
  {
    var copies := CopyRows(rows, newId);
    var stored := Stored(copies, firstId);
    forall i | 0 <= i < |stored| ensures stored[i].eventId == newId && stored[i].body == rows[i].body {
      assert stored[i].eventId == copies[i].eventId && stored[i].body == copies[i].body;
    }
  }

  /** After the copies are stored, the new event (which had no rows) has
      exactly the source event's guests, in the same order and with the
      same data; the source event keeps its rows. */
  lemma CopyReproducesGuests(table: seq<EventGuestRow>, src: nat, newId: nat, firstId: nat)
    requires src != newId
    requires SourceRows(table, newId) == []
    ensures var after := table + Stored(CopyRows(SourceRows(table, src), newId), firstId);
      && Bodies(SourceRows(after, newId)) == Bodies(SourceRows(table, src))
      && SourceRows(after, src) == SourceRows(table, src)
  {
    var rows := SourceRows(table, src);
    var stored := Stored(CopyRows(rows, newId), firstId);
    FilterAppend(table, stored, OfEvent(newId));
    FilterAppend(table, stored, OfEvent(src));
    StoredCopies(rows, src, newId, firstId);
    assert SourceRows(table + stored, newId) == stored;
    assert SourceRows(table + stored, src) == rows + [];
  }

  /** Whether the Zoom webinar field is shown for an event type: for the
      remote modalities, and never for an in-person event or before a
      modality is chosen. */
  function ZoomShown(eventType: string): (shown: bool)
    ensures eventType in EventTypeOptions ==> (shown <==> eventType == "Virtual" || eventType == "Híbrido")
    ensures eventType == "" ==> !shown
  {
    eventType != "" && eventType != "Presencial"
  }
}

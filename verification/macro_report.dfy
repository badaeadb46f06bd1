/** The statistics of the macro-event report page: the `event_guest` rows
    of the selected macro-event's events, the invited/registered/attended
    totals, and one registered/attended count per event. */
module MacroReport {
  import opened Basics
  import opened Seqs
  import opened Text
  import opened Tables
  import opened Attendance

  /** The totals over every guest of the macro-event. */
  datatype Totals = Totals(totalInvitados: nat, totalRegistrados: nat, totalAsistentes: nat)

  /** The counts of one event. */
  datatype EventStat = EventStat(eventId: nat, eventName: string, registrados: nat, asistentes: nat)

  /** What `calculateStats` returns. */
  datatype Stats = Stats(totals: Totals, eventStats: seq<EventStat>)

  /** The ids of a list of events, in order. */
  function EventIds(events: seq<Event>): (ids: seq<nat>)
    ensures |ids| == |events|
    ensures forall k :: 0 <= k < |events| ==> ids[k] == events[k].id
  {
    if |events| == 0 then [] else [events[0].id] + EventIds(events[1..])
  }

  /** `events.filter(e => e.macro_event_id === id)`; an id that did not
      parse (`NaN`) matches no event. */
  function EventsOf(events: seq<Event>, macroEventId: Option<int>): (r: seq<Event>)
    ensures forall e :: e in r <==> e in events && macroEventId.Some? && e.macroEventId == macroEventId.value
  {
    Filter(events, (e: Event) => macroEventId.Some? && e.macroEventId == macroEventId.value)
  }

  /** The guests whose event is one of `mine`. */
  function GuestsOf(guests: seq<EventGuestRow>, mine: seq<Event>): (r: seq<EventGuestRow>)
    ensures forall g :: g in r <==> g in guests && g.eventId in EventIds(mine)
  {
    Filter(guests, (g: EventGuestRow) => g.eventId in EventIds(mine))
  }

  /** Rows with flag `f` set. */
  function HasFlag(f: Flag): EventGuestRow -> bool
  {
    (g: EventGuestRow) => FlagOf(g.body, f)
  }

  /** Rows of event `id` with flag `f` set. */
  function OfEventWithFlag(id: nat, f: Flag): EventGuestRow -> bool
  {
    (g: EventGuestRow) => g.eventId == id && FlagOf(g.body, f)
  }

  /** The counts of event `e` among `guests`. */
  function StatOf(guests: seq<EventGuestRow>, e: Event): EventStat
  {
    EventStat(e.id, e.name, Count(guests, OfEventWithFlag(e.id, Registered)), Count(guests, OfEventWithFlag(e.id, Assisted)))
  }

  /** One entry per event, in the events' order. */
  function StatsPerEvent(guests: seq<EventGuestRow>, events: seq<Event>): (r: seq<EventStat>)
    ensures |r| == |events|
    ensures forall k :: 0 <= k < |events| ==> r[k] == StatOf(guests, events[k])
  {
    if |events| == 0 then [] else [StatOf(guests, events[0])] + StatsPerEvent(guests, events[1..])
  }

  /** `calculateStats`: the guests of the macro-event's events are counted,
      the others ignored; registered and attended never exceed invited;
      there is one entry per event of the macro-event, in order, with its
      id and name and the registered and attended rows of that event. */
  function CalculateStats(macroEventId: Option<int>, events: seq<Event>, guests: seq<EventGuestRow>): (s: Stats)
    ensures var mine := EventsOf(events, macroEventId);
      var counted := GuestsOf(guests, mine);
      && s.totals.totalInvitados == |counted|
      && s.totals.totalRegistrados == Count(counted, HasFlag(Registered)) <= s.totals.totalInvitados
      && s.totals.totalAsistentes == Count(counted, HasFlag(Assisted)) <= s.totals.totalInvitados
      && |s.eventStats| == |mine|
      && forall k :: 0 <= k < |mine| ==> s.eventStats[k].eventId == mine[k].id && s.eventStats[k].eventName == mine[k].name
    ensures var mine := EventsOf(events, macroEventId);
      forall k :: 0 <= k < |mine| ==>
        && s.eventStats[k].registrados == Count(guests, OfEventWithFlag(mine[k].id, Registered))
        && s.eventStats[k].asistentes == Count(guests, OfEventWithFlag(mine[k].id, Assisted))
  {
    var mine := EventsOf(events, macroEventId);
    var counted := GuestsOf(guests, mine);
    forall k | 0 <= k < |mine|
      ensures Count(counted, OfEventWithFlag(mine[k].id, Registered)) == Count(guests, OfEventWithFlag(mine[k].id, Registered))
      ensures Count(counted, OfEventWithFlag(mine[k].id, Assisted)) == Count(guests, OfEventWithFlag(mine[k].id, Assisted))
    {
      EventRowsAreCounted(guests, mine, k, Registered);
      EventRowsAreCounted(guests, mine, k, Assisted);
    }
    Stats(Totals(|counted|, Count(counted, HasFlag(Registered)), Count(counted, HasFlag(Assisted))),
          StatsPerEvent(counted, mine))
  }

  /** The rows of an event of the macro-event are all among the rows
      counted, so counting them there counts them everywhere. */
  lemma EventRowsAreCounted(guests: seq<EventGuestRow>, mine: seq<Event>, k: nat, f: Flag)
    requires k < |mine|
    ensures Count(GuestsOf(guests, mine), OfEventWithFlag(mine[k].id, f)) == Count(guests, OfEventWithFlag(mine[k].id, f))
  {
    var inMine := (g: EventGuestRow) => g.eventId in EventIds(mine);
    var mineWithFlag := (g: EventGuestRow) => inMine(g) && OfEventWithFlag(mine[k].id, f)(g);
    assert mine[k].id == EventIds(mine)[k];
    CountFilter(guests, inMine, OfEventWithFlag(mine[k].id, f), mineWithFlag);
    CountSameOn(guests, mineWithFlag, OfEventWithFlag(mine[k].id, f));
  }

  function Registrados(s: EventStat): nat { s.registrados }
  function Asistentes(s: EventStat): nat { s.asistentes }

  /** The count an entry holds for flag `f`. */
  function StatValue(f: Flag): EventStat -> nat
  {
    if f == Registered then Registrados else Asistentes
  }

  /** Rows of one of the events `ids` with flag `f` set. */
  function InEventsWithFlag(ids: seq<nat>, f: Flag): EventGuestRow -> bool
  {
    (g: EventGuestRow) => g.eventId in ids && FlagOf(g.body, f)
  }

  /** The first id of a duplicate-free list does not occur in the rest,
      which is duplicate-free too. */
  lemma DistinctTail(events: seq<Event>)
    requires |events| > 0 && NoDuplicates(EventIds(events))
    ensures EventIds(events) == [events[0].id] + EventIds(events[1..])
    ensures NoDuplicates(EventIds(events[1..]))
    ensures events[0].id !in EventIds(events[1..])
  {
    var ids := EventIds(events);
    NoDuplicatesTail(ids);
    assert ids[1..] == EventIds(events[1..]);
  }

  /** The per-event counts of events with distinct ids count each row of
      those events exactly once. */
  lemma {:induction false} SumPerEvent(guests: seq<EventGuestRow>, events: seq<Event>, f: Flag)
    requires NoDuplicates(EventIds(events))
    ensures SumOf(StatsPerEvent(guests, events), StatValue(f)) == Count(guests, InEventsWithFlag(EventIds(events), f))
  {
    if |events| == 0 {
      CountSameOn(guests, InEventsWithFlag(EventIds(events), f), InEventsWithFlag([], f));
      assert Count(guests, InEventsWithFlag([], f)) == 0;
    } else {
      var e := events[0];
      DistinctTail(events);
      SumPerEvent(guests, events[1..], f);
      assert StatsPerEvent(guests, events)[1..] == StatsPerEvent(guests, events[1..]);
      assert StatValue(f)(StatsPerEvent(guests, events)[0]) == Count(guests, OfEventWithFlag(e.id, f));
      CountDisjointUnion(guests, OfEventWithFlag(e.id, f), InEventsWithFlag(EventIds(events[1..]), f),
                         InEventsWithFlag(EventIds(events), f));
    }
  }

  /** When the macro-event's events have distinct ids, the per-event
      registered (attended) counts add up to the registered (attended)
      total. */
  lemma EventStatsSumToTotals(macroEventId: Option<int>, events: seq<Event>, guests: seq<EventGuestRow>)
    requires NoDuplicates(EventIds(EventsOf(events, macroEventId)))
    ensures var s := CalculateStats(macroEventId, events, guests);
      && SumOf(s.eventStats, Registrados) == s.totals.totalRegistrados
      && SumOf(s.eventStats, Asistentes) == s.totals.totalAsistentes
  {
    var mine := EventsOf(events, macroEventId);
    var counted := GuestsOf(guests, mine);
    SumPerEvent(counted, mine, Registered);
    SumPerEvent(counted, mine, Assisted);
    CountSameOn(counted, InEventsWithFlag(EventIds(mine), Registered), HasFlag(Registered));
    CountSameOn(counted, InEventsWithFlag(EventIds(mine), Assisted), HasFlag(Assisted));
  }

  /** The `stats` memo: nothing while no macro-event is selected;
      otherwise the statistics of the selected id, read with
      `Number.parseInt(selected, 10)`. */
  function SelectedStats(selected: string, events: seq<Event>, guests: seq<EventGuestRow>): (r: Option<Stats>)
    ensures r.None? <==> selected == ""
    ensures r.Some? ==> r.value == CalculateStats(ParseIntJs(selected), events, guests)
  {
    if selected == "" then None else Some(CalculateStats(ParseIntJs(selected), events, guests))
  }

  /** Selecting a macro-event by its decimal id reports on that id. */
  lemma SelectedById(id: nat, events: seq<Event>, guests: seq<EventGuestRow>)
    ensures SelectedStats(Decimal(id), events, guests) == Some(CalculateStats(Some(id), events, guests))
  {
    ParseIntJsDecimal(id);
  }
}

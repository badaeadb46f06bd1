/** The "encuentro por modalidad" table: the per-event registered and
    attended counts grouped by event type, one group per type in the order
    the types first appear. */
module EventTypeReport {
  import opened Seqs

  /** One entry of the table's input. */
  datatype TypeStat = TypeStat(eventId: int, eventName: string, eventType: string, registrados: nat, asistentes: nat)

  /** One entry of `groupedByType`, keyed by its event type. */
  datatype Group = Group(eventType: string, registrados: nat, asistentes: nat)

  function StatType(s: TypeStat): string { s.eventType }
  function StatRegistrados(s: TypeStat): nat { s.registrados }
  function StatAsistentes(s: TypeStat): nat { s.asistentes }
  function GroupType(g: Group): string { g.eventType }
  function GroupRegistrados(g: Group): nat { g.registrados }
  function GroupAsistentes(g: Group): nat { g.asistentes }

  /** The keys of the accumulator, in insertion order. */
  function Types(groups: seq<Group>): seq<string>
  {
    MapSeq(groups, GroupType)
  }

  /** The entries of event type `t`. */
  function OfType(t: string): TypeStat -> bool
  {
    (s: TypeStat) => s.eventType == t
  }

  /** The position of the group of type `t`, or `|groups|` when there is
      none. */
  function IndexOfType(groups: seq<Group>, t: string): (i: nat)
    ensures i <= |groups|
    ensures i < |groups| ==> groups[i].eventType == t
    ensures forall k :: 0 <= k < i ==> groups[k].eventType != t
  {
    if |groups| == 0 then 0
    else if groups[0].eventType == t then 0
    else 1 + IndexOfType(groups[1..], t)
  }

  /** One step of the reduction: an unseen type opens a group holding the
      entry's counts at the end; a seen type adds the entry's counts to its
      group; every other group stays as it was, and the totals grow by the
      entry's counts. The keys of the accumulator are distinct, as those of
      an object are. */
  function AddTo(groups: seq<Group>, s: TypeStat): (r: seq<Group>)
    requires NoDuplicates(Types(groups))
    ensures Types(r) == if s.eventType in Types(groups) then Types(groups) else Types(groups) + [s.eventType]
    ensures forall k :: 0 <= k < |r| ==>
      && r[k].registrados == (if k < |groups| then groups[k].registrados else 0) + (if r[k].eventType == s.eventType then s.registrados else 0)
      && r[k].asistentes == (if k < |groups| then groups[k].asistentes else 0) + (if r[k].eventType == s.eventType then s.asistentes else 0)
    ensures SumOf(r, GroupRegistrados) == SumOf(groups, GroupRegistrados) + s.registrados
    ensures SumOf(r, GroupAsistentes) == SumOf(groups, GroupAsistentes) + s.asistentes
  {
    var i := IndexOfType(groups, s.eventType);
    if i == |groups| then
      var r := groups + [Group(s.eventType, s.registrados, s.asistentes)];
      OpenGroup(groups, s, r);
      r
    else
      var r := groups[i := Group(s.eventType, groups[i].registrados + s.registrados, groups[i].asistentes + s.asistentes)];
      JoinGroup(groups, s, i, r);
      r
  }

  /** An entry of an unseen type opens a group at the end. */
  lemma OpenGroup(groups: seq<Group>, s: TypeStat, r: seq<Group>)
    requires IndexOfType(groups, s.eventType) == |groups|
    requires r == groups + [Group(s.eventType, s.registrados, s.asistentes)]
    ensures Types(r) == if s.eventType in Types(groups) then Types(groups) else Types(groups) + [s.eventType]
    ensures forall k :: 0 <= k < |r| ==>
      && r[k].registrados == (if k < |groups| then groups[k].registrados else 0) + (if r[k].eventType == s.eventType then s.registrados else 0)
      && r[k].asistentes == (if k < |groups| then groups[k].asistentes else 0) + (if r[k].eventType == s.eventType then s.asistentes else 0)
    ensures SumOf(r, GroupRegistrados) == SumOf(groups, GroupRegistrados) + s.registrados
    ensures SumOf(r, GroupAsistentes) == SumOf(groups, GroupAsistentes) + s.asistentes
  {
    var g := Group(s.eventType, s.registrados, s.asistentes);
    SumOfSnoc(groups, g, GroupRegistrados);
    SumOfSnoc(groups, g, GroupAsistentes);
    MapSeqAppend(groups, [g], GroupType);
    assert s.eventType !in Types(groups) by {
      forall k | 0 <= k < |groups| ensures Types(groups)[k] != s.eventType {
        assert Types(groups)[k] == groups[k].eventType;
      }
    }
    forall k | 0 <= k < |groups| ensures r[k] == groups[k] && r[k].eventType != s.eventType {
    }
  }

  /** An entry of a seen type is added to its group only. */
  lemma JoinGroup(groups: seq<Group>, s: TypeStat, i: nat, r: seq<Group>)
    requires NoDuplicates(Types(groups))
    requires i == IndexOfType(groups, s.eventType) < |groups|
    requires r == groups[i := Group(s.eventType, groups[i].registrados + s.registrados, groups[i].asistentes + s.asistentes)]
    ensures Types(r) == if s.eventType in Types(groups) then Types(groups) else Types(groups) + [s.eventType]
    ensures forall k :: 0 <= k < |r| ==>
      && r[k].registrados == (if k < |groups| then groups[k].registrados else 0) + (if r[k].eventType == s.eventType then s.registrados else 0)
      && r[k].asistentes == (if k < |groups| then groups[k].asistentes else 0) + (if r[k].eventType == s.eventType then s.asistentes else 0)
    ensures SumOf(r, GroupRegistrados) == SumOf(groups, GroupRegistrados) + s.registrados
    ensures SumOf(r, GroupAsistentes) == SumOf(groups, GroupAsistentes) + s.asistentes
  {
    var g := Group(s.eventType, groups[i].registrados + s.registrados, groups[i].asistentes + s.asistentes);
    SumOfUpdate(groups, i, g, GroupRegistrados);
    SumOfUpdate(groups, i, g, GroupAsistentes);
    assert GroupRegistrados(g) == GroupRegistrados(groups[i]) + s.registrados;
    assert GroupAsistentes(g) == GroupAsistentes(groups[i]) + s.asistentes;
    assert SumOf(r, GroupRegistrados) == SumOf(groups, GroupRegistrados) + s.registrados;
    assert SumOf(r, GroupAsistentes) == SumOf(groups, GroupAsistentes) + s.asistentes;
    assert Types(groups)[i] == s.eventType;
    assert Types(r) == Types(groups) by {
      forall k | 0 <= k < |groups| ensures Types(r)[k] == Types(groups)[k] {
      }
    }
    forall k | 0 <= k < |r|
      ensures r[k].registrados == groups[k].registrados + (if r[k].eventType == s.eventType then s.registrados else 0)
      ensures r[k].asistentes == groups[k].asistentes + (if r[k].eventType == s.eventType then s.asistentes else 0)
    {
      if k != i {
        assert Types(groups)[k] == groups[k].eventType;
        assert r[k] == groups[k];
      }
    }
  }

  /** `groupedByType`: the reduction of the entries, in order, from no
      groups. The types are distinct and appear in first-occurrence order;
      every group holds the sums over exactly the entries of its type. */
  function Grouped(stats: seq<TypeStat>): (r: seq<Group>)
    ensures Types(r) == Dedup(MapSeq(stats, StatType))
    ensures forall k :: 0 <= k < |r| ==>
      && r[k].registrados == SumOf(Filter(stats, OfType(r[k].eventType)), StatRegistrados)
      && r[k].asistentes == SumOf(Filter(stats, OfType(r[k].eventType)), StatAsistentes)
  {
    if |stats| == 0 then []
    else
      var init := stats[..|stats| - 1];
      var last := stats[|stats| - 1];
      var prev := Grouped(init);
      var r := AddTo(prev, last);
      InitLast(stats);
      GroupedTypes(init, last, prev, r);
      GroupedSums(init, last, prev, r);
      r
  }

  /** A type that no group has yet has no entry among those reduced so far. */
  lemma UnseenType(init: seq<TypeStat>, t: string)
    requires t !in Dedup(MapSeq(init, StatType))
    ensures Filter(init, OfType(t)) == []
  {
    forall i | 0 <= i < |init| ensures !OfType(t)(init[i]) {
      assert MapSeq(init, StatType)[i] == init[i].eventType;
    }
  }

  /** The sums over the entries of type `t` after adding `last`. */
  lemma SumsOfType(init: seq<TypeStat>, last: TypeStat, t: string)
    ensures SumOf(Filter(init + [last], OfType(t)), StatRegistrados)
         == SumOf(Filter(init, OfType(t)), StatRegistrados) + (if last.eventType == t then last.registrados else 0)
    ensures SumOf(Filter(init + [last], OfType(t)), StatAsistentes)
         == SumOf(Filter(init, OfType(t)), StatAsistentes) + (if last.eventType == t then last.asistentes else 0)
  {
    var p := OfType(t);
    FilterAppend(init, [last], p);
    SumOfAppend(Filter(init, p), Filter([last], p), StatRegistrados);
    SumOfAppend(Filter(init, p), Filter([last], p), StatAsistentes);
    assert Filter([last], p) == if p(last) then [last] else [];
  }

  /** Adding the last entry to the groups of the others keeps one group
      per type in first-occurrence order. */
  lemma GroupedTypes(init: seq<TypeStat>, last: TypeStat, prev: seq<Group>, r: seq<Group>)
    requires Types(prev) == Dedup(MapSeq(init, StatType))
    requires r == AddTo(prev, last)
    ensures Types(r) == Dedup(MapSeq(init + [last], StatType))
  {
    MapSeqAppend(init, [last], StatType);
    DedupSnoc(MapSeq(init, StatType), last.eventType);
  }

  /** Adding the last entry to the groups of the others gives every group
      the sums over all the entries of its type. */
  lemma GroupedSums(init: seq<TypeStat>, last: TypeStat, prev: seq<Group>, r: seq<Group>)
    requires Types(prev) == Dedup(MapSeq(init, StatType))
    requires forall k :: 0 <= k < |prev| ==>
      && prev[k].registrados == SumOf(Filter(init, OfType(prev[k].eventType)), StatRegistrados)
      && prev[k].asistentes == SumOf(Filter(init, OfType(prev[k].eventType)), StatAsistentes)
    requires r == AddTo(prev, last)
    ensures forall k :: 0 <= k < |r| ==>
      && r[k].registrados == SumOf(Filter(init + [last], OfType(r[k].eventType)), StatRegistrados)
      && r[k].asistentes == SumOf(Filter(init + [last], OfType(r[k].eventType)), StatAsistentes)
  {
    forall k | 0 <= k < |r|
      ensures r[k].registrados == SumOf(Filter(init + [last], OfType(r[k].eventType)), StatRegistrados)
      ensures r[k].asistentes == SumOf(Filter(init + [last], OfType(r[k].eventType)), StatAsistentes)
    {
      var t := r[k].eventType;
      SumsOfType(init, last, t);
      if k < |prev| {
        assert Types(r)[k] == t && Types(prev)[k] == prev[k].eventType;
      } else {
        assert Types(r)[k] == t;
        UnseenType(init, t);
      }
    }
  }

  /** Every event type of the input has exactly one group, and every group
      is the type of some entry. */
  lemma OneGroupPerType(stats: seq<TypeStat>, t: string)
    ensures NoDuplicates(Types(Grouped(stats)))
    ensures t in Types(Grouped(stats)) <==> exists i :: 0 <= i < |stats| && stats[i].eventType == t
  {
    if t in MapSeq(stats, StatType) {
      var i :| 0 <= i < |stats| && MapSeq(stats, StatType)[i] == t;
    }
    forall i | 0 <= i < |stats| && stats[i].eventType == t ensures t in MapSeq(stats, StatType) {
      assert MapSeq(stats, StatType)[i] == t;
    }
  }

  /** The last entry is reduced last. */
  lemma GroupedSnoc(stats: seq<TypeStat>)
    requires |stats| > 0
    ensures NoDuplicates(Types(Grouped(stats[..|stats| - 1])))
    ensures Grouped(stats) == AddTo(Grouped(stats[..|stats| - 1]), stats[|stats| - 1])
  {
  }

  /** The group sums add up to the sums over all entries. */
  lemma {:induction false} GroupTotals(stats: seq<TypeStat>)
    ensures SumOf(Grouped(stats), GroupRegistrados) == SumOf(stats, StatRegistrados)
    ensures SumOf(Grouped(stats), GroupAsistentes) == SumOf(stats, StatAsistentes)
  {
    if |stats| > 0 {
      var init := stats[..|stats| - 1];
      var last := stats[|stats| - 1];
      GroupTotals(init);
      GroupedSnoc(stats);
      var prev := Grouped(init);
      assert SumOf(Grouped(stats), GroupRegistrados) == SumOf(prev, GroupRegistrados) + last.registrados;
      assert SumOf(Grouped(stats), GroupAsistentes) == SumOf(prev, GroupAsistentes) + last.asistentes;
      SumOfInit(stats, StatRegistrados);
      SumOfInit(stats, StatAsistentes);
    }
  }

  /** No entries, no groups. */
  lemma NoStatsNoGroups(stats: seq<TypeStat>)
    ensures Grouped(stats) == [] <==> stats == []
  {
    if stats != [] {
      assert Types(Grouped(stats)) == Dedup(MapSeq(stats, StatType));
      assert MapSeq(stats, StatType)[0] in MapSeq(stats, StatType);
    }
  }
}

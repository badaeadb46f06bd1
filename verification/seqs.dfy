/** Sequence operations the dashboard components apply to fetched rows:
    `Array.prototype.filter`, counting, `slice(0, n)`, `[...new Set(xs)]`,
    the include/exclude toggle of a checkbox list, sums, and a sort by a
    key under an arbitrary total preorder (the model of `localeCompare`). */
module Seqs {

  /** Number of elements of `s` that satisfy `p`. */
  function Count<T>(s: seq<T>, p: T -> bool): (n: nat)
    ensures n <= |s|
    ensures n == 0 <==> forall i :: 0 <= i < |s| ==> !p(s[i])
  {
    if |s| == 0 then 0
    else (if p(s[0]) then 1 else 0) + Count(s[1..], p)
  }

  /** `s.filter(p)`: the elements satisfying `p`, in their original order. */
  function Filter<T(!new)>(s: seq<T>, p: T -> bool): (r: seq<T>)
    ensures |r| == Count(s, p)
    ensures forall i :: 0 <= i < |r| ==> p(r[i])
    ensures forall x :: x in r <==> x in s && p(x)
    ensures multiset(r) <= multiset(s)
  {
    if |s| == 0 then []
    else
      assert s == [s[0]] + s[1..];
      if p(s[0]) then [s[0]] + Filter(s[1..], p) else Filter(s[1..], p)
  }

  /** Filtering distributes over concatenation. */
  lemma {:induction false} FilterAppend<T(!new)>(a: seq<T>, b: seq<T>, p: T -> bool)
    ensures Filter(a + b, p) == Filter(a, p) + Filter(b, p)
  {
    if |a| == 0 {
      assert a + b == b;
    } else {
      assert (a + b)[1..] == a[1..] + b;
      FilterAppend(a[1..], b, p);
    }
  }

  /** A filter that every element passes leaves the sequence unchanged. */
  lemma {:induction false} FilterAll<T(!new)>(s: seq<T>, p: T -> bool)
    requires forall i :: 0 <= i < |s| ==> p(s[i])
    ensures Filter(s, p) == s
  {
    if |s| > 0 {
      FilterAll(s[1..], p);
    }
  }

  /** Filtering by a predicate no element satisfies yields nothing. */
  lemma {:induction false} FilterNone<T(!new)>(s: seq<T>, p: T -> bool)
    requires forall i :: 0 <= i < |s| ==> !p(s[i])
    ensures Filter(s, p) == []
  {
    if |s| > 0 {
      FilterNone(s[1..], p);
    }
  }

  /** Filtering by a predicate only one element satisfies yields that
      element. */
  lemma {:induction false} FilterUnique<T(!new)>(s: seq<T>, p: T -> bool, k: nat)
    requires k < |s| && p(s[k])
    requires forall i :: 0 <= i < |s| && i != k ==> !p(s[i])
    ensures Filter(s, p) == [s[k]]
  {
    if k == 0 {
      assert forall i :: 0 <= i < |s[1..]| ==> !p(s[1..][i]) by {
        forall i | 0 <= i < |s[1..]| ensures !p(s[1..][i]) {
          assert s[1..][i] == s[i + 1];
        }
      }
    } else {
      FilterUnique(s[1..], p, k - 1);
    }
  }

  /** Filtering twice by the same predicate is filtering once. */
  lemma {:induction false} FilterIdempotent<T(!new)>(s: seq<T>, p: T -> bool)
    ensures Filter(Filter(s, p), p) == Filter(s, p)
  {
    FilterAll(Filter(s, p), p);
  }

  /** Counting is additive over concatenation. */
  lemma {:induction false} CountAppend<T(!new)>(a: seq<T>, b: seq<T>, p: T -> bool)
    ensures Count(a + b, p) == Count(a, p) + Count(b, p)
  {
    FilterAppend(a, b, p);
  }

  /** Counting by a predicate implied by another can only grow. */
  lemma {:induction false} CountMonotone<T>(s: seq<T>, p: T -> bool, q: T -> bool)
    requires forall x :: p(x) ==> q(x)
    ensures Count(s, p) <= Count(s, q)
  {
    if |s| > 0 {
      CountMonotone(s[1..], p, q);
    }
  }

  /** Counting the elements satisfying one of two disjoint predicates. */
  lemma {:induction false} CountDisjointUnion<T>(s: seq<T>, p: T -> bool, q: T -> bool, pq: T -> bool)
    requires forall x :: !(p(x) && q(x))
    requires forall x :: pq(x) <==> p(x) || q(x)
    ensures Count(s, pq) == Count(s, p) + Count(s, q)
  {
    if |s| > 0 {
      CountDisjointUnion(s[1..], p, q, pq);
    }
  }

  /** Counting after a filter counts the conjunction. */
  lemma {:induction false} CountFilter<T(!new)>(s: seq<T>, p: T -> bool, q: T -> bool, pq: T -> bool)
    requires forall x :: pq(x) <==> p(x) && q(x)
    ensures Count(Filter(s, p), q) == Count(s, pq)
  {
    if |s| > 0 {
      CountFilter(s[1..], p, q, pq);
      if p(s[0]) {
        assert Filter(s, p) == [s[0]] + Filter(s[1..], p);
        assert ([s[0]] + Filter(s[1..], p))[1..] == Filter(s[1..], p);
      }
    }
  }

  /** Predicates that agree on every element count the same. */
  lemma {:induction false} CountSameOn<T>(s: seq<T>, p: T -> bool, q: T -> bool)
    requires forall i :: 0 <= i < |s| ==> (p(s[i]) <==> q(s[i]))
    ensures Count(s, p) == Count(s, q)
  {
    if |s| > 0 {
      CountSameOn(s[1..], p, q);
    }
  }

  /** Two permutations of each other count the same. */
  lemma {:induction false} CountPermutation<T(!new)>(a: seq<T>, b: seq<T>, p: T -> bool)
    requires multiset(a) == multiset(b)
    ensures Count(a, p) == Count(b, p)
  {
    if |a| == 0 {
      assert |b| == |multiset(b)| == 0;
    } else {
      assert a[0] in multiset(b);
      var i :| 0 <= i < |b| && b[i] == a[0];
      var rest := b[..i] + b[i + 1..];
      assert b == b[..i] + [b[i]] + b[i + 1..];
      assert a == [a[0]] + a[1..];
      assert multiset(b) == multiset(b[..i]) + multiset{b[i]} + multiset(b[i + 1..]);
      assert multiset(a) == multiset{a[0]} + multiset(a[1..]);
      assert multiset(rest) == multiset(b[..i]) + multiset(b[i + 1..]);
      forall y ensures multiset(a[1..])[y] == multiset(rest)[y] {
        assert multiset(a)[y] == multiset(b)[y];
      }
      assert multiset(a[1..]) == multiset(rest);
      CountPermutation(a[1..], rest, p);
      CountAppend(b[..i] + [b[i]], b[i + 1..], p);
      CountAppend(b[..i], [b[i]], p);
      CountAppend(b[..i], b[i + 1..], p);
    }
  }

  /** `s.slice(0, n)` for a non-negative `n`. */
  function Take<T>(s: seq<T>, n: nat): (r: seq<T>)
    ensures |r| <= n && |r| <= |s|
    ensures |r| == n || |r| == |s|
    ensures r <= s
  {
    if n <= |s| then s[..n] else s
  }

  /** Sum of a non-negative measure over a sequence. */
  function SumOf<T>(s: seq<T>, f: T -> nat): (n: nat)
    ensures |s| == 0 ==> n == 0
  {
    if |s| == 0 then 0 else f(s[0]) + SumOf(s[1..], f)
  }

  /** Summing is additive over concatenation. */
  lemma {:induction false} SumOfAppend<T>(a: seq<T>, b: seq<T>, f: T -> nat)
    ensures SumOf(a + b, f) == SumOf(a, f) + SumOf(b, f)
  {
    if |a| == 0 {
      assert a + b == b;
    } else {
      assert (a + b)[1..] == a[1..] + b;
      SumOfAppend(a[1..], b, f);
    }
  }

  /** Summing a sequence extended by one element. */
  lemma SumOfSnoc<T>(s: seq<T>, x: T, f: T -> nat)
    ensures SumOf(s + [x], f) == SumOf(s, f) + f(x)
  {
    SumOfAppend(s, [x], f);
    assert SumOf([x], f) == f(x) + SumOf([x][1..], f);
  }

  /** Summing a non-empty sequence: its front, then its last element. */
  lemma {:induction false} SumOfInit<T>(s: seq<T>, f: T -> nat)
    requires |s| > 0
    ensures SumOf(s, f) == SumOf(s[..|s| - 1], f) + f(s[|s| - 1])
  {
    if |s| > 1 {
      SumOfInit(s[1..], f);
      assert s[1..][..|s| - 2] == s[..|s| - 1][1..];
    }
  }

  /** Dropping the head of a duplicate-free sequence keeps it
      duplicate-free, and the head does not occur again. */
  lemma NoDuplicatesTail<T>(s: seq<T>)
    requires |s| > 0 && NoDuplicates(s)
    ensures NoDuplicates(s[1..]) && s[0] !in s[1..]
  {
    forall i, j | 0 <= i < j < |s| - 1 ensures s[1..][i] != s[1..][j] {
      assert s[1..][i] == s[i + 1] && s[1..][j] == s[j + 1];
    }
    forall k | 0 <= k < |s| - 1 ensures s[1..][k] != s[0] {
      assert s[1..][k] == s[k + 1];
    }
  }

  /** Replacing one element changes the sum by the difference. */
  lemma {:induction false} SumOfUpdate<T>(s: seq<T>, i: nat, x: T, f: T -> nat)
    requires i < |s|
    ensures SumOf(s[i := x], f) + f(s[i]) == SumOf(s, f) + f(x)
  {
    if i > 0 {
      assert s[i := x][1..] == s[1..][i - 1 := x];
      SumOfUpdate(s[1..], i - 1, x, f);
    }
  }

  /** No element occurs twice. */
  predicate NoDuplicates<T(==)>(s: seq<T>)
  {
    forall i, j :: 0 <= i < j < |s| ==> s[i] != s[j]
  }

  /** `[...new Set(s)]`: the first occurrence of every element, in order. */
  function Dedup<T(==,!new)>(s: seq<T>): (r: seq<T>)
    ensures NoDuplicates(r)
    ensures forall x :: x in r <==> x in s
    ensures |r| <= |s|
  {
    if |s| == 0 then []
    else
      var d := Dedup(s[..|s| - 1]);
      assert forall x :: x in s <==> x in s[..|s| - 1] || x == s[|s| - 1] by {
        assert s == s[..|s| - 1] + [s[|s| - 1]];
      }
      if s[|s| - 1] in d then d else d + [s[|s| - 1]]
  }

  /** Filtering a non-empty sequence: its head, when kept, then the
      filtered tail. */
  lemma FilterCons<T(!new)>(s: seq<T>, p: T -> bool)
    requires |s| > 0
    ensures Filter(s, p) == (if p(s[0]) then [s[0]] else []) + Filter(s[1..], p)
  {
  }

  /** Filtering two sequences related position by position, with a
      selection that does not tell related elements apart, gives filtered
      sequences related position by position. */
  lemma {:induction false} FilterRelated<T(!new)>(a: seq<T>, b: seq<T>, p: T -> bool, rel: (T, T) -> bool)
    requires |a| == |b|
    requires forall i :: 0 <= i < |a| ==> rel(a[i], b[i]) && p(a[i]) == p(b[i])
    ensures |Filter(a, p)| == |Filter(b, p)|
    ensures forall k :: 0 <= k < |Filter(a, p)| ==> rel(Filter(a, p)[k], Filter(b, p)[k])
  {
    if |a| > 0 {
      assert forall i :: 0 <= i < |a| - 1 ==> a[1..][i] == a[i + 1] && b[1..][i] == b[i + 1];
      FilterRelated(a[1..], b[1..], p, rel);
      FilterCons(a, p);
      FilterCons(b, p);
      var fa, fb := Filter(a, p), Filter(b, p);
      var ta, tb := Filter(a[1..], p), Filter(b[1..], p);
      if p(a[0]) {
        assert fa == [a[0]] + ta && fb == [b[0]] + tb;
        forall k | 0 <= k < |fa| ensures rel(fa[k], fb[k]) {
          if k > 0 {
            assert fa[k] == ta[k - 1] && fb[k] == tb[k - 1];
          }
        }
      } else {
        assert fa == ta && fb == tb;
      }
    }
  }

  /** A non-empty sequence is its front followed by its last element. */
  lemma InitLast<T>(s: seq<T>)
    requires |s| > 0
    ensures s[..|s| - 1] + [s[|s| - 1]] == s
  {
  }

  /** De-duplicating a sequence extended by one element. */
  lemma DedupSnoc<T(!new)>(s: seq<T>, x: T)
    ensures Dedup(s + [x]) == if x in Dedup(s) then Dedup(s) else Dedup(s) + [x]
  {
    assert (s + [x])[..|s|] == s;
  }

  /** A duplicate-free sequence is its own de-duplication. */
  lemma {:induction false} DedupOfDistinct<T(!new)>(s: seq<T>)
    requires NoDuplicates(s)
    ensures Dedup(s) == s
  {
    if |s| > 0 {
      var init := s[..|s| - 1];
      DedupOfDistinct(init);
      assert s == init + [s[|s| - 1]];
      assert s[|s| - 1] !in init by {
        forall k | 0 <= k < |init| ensures init[k] != s[|s| - 1] {
          assert init[k] == s[k];
        }
      }
    }
  }

  /** The elements other than `x`. */
  function Other<T(==)>(x: T): T -> bool
  {
    (y: T) => y != x
  }

  /** The checkbox toggle `prev.includes(x) ? prev.filter(y => y !== x) : [...prev, x]`. */
  function Toggle<T(==,!new)>(xs: seq<T>, x: T): (r: seq<T>)
    ensures x in r <==> x !in xs
    ensures forall y :: y != x ==> (y in r <==> y in xs)
    ensures x !in xs ==> r == xs + [x]
    ensures Filter(r, Other(x)) == Filter(xs, Other(x))
  {
    if x in xs then
      FilterIdempotent(xs, Other(x));
      Filter(xs, Other(x))
    else
      FilterAppend(xs, [x], Other(x));
      xs + [x]
  }

  /** Toggling the same element twice restores a selection that did not hold it. */
  lemma ToggleTwiceAbsent<T(!new)>(xs: seq<T>, x: T)
    requires x !in xs
    ensures Toggle(Toggle(xs, x), x) == xs
  {
    FilterAppend(xs, [x], Other(x));
    FilterAll(xs, Other(x));
  }

  /** A total preorder on sort keys: the contract `localeCompare` fulfils. */
  ghost predicate TotalPreorder<K(!new)>(leq: (K, K) -> bool)
  {
    && (forall a, b :: leq(a, b) || leq(b, a))
    && (forall a, b, c :: leq(a, b) && leq(b, c) ==> leq(a, c))
  }

  /** The keys of `s` are in ascending order under `leq`. */
  ghost predicate SortedBy<T, K>(s: seq<T>, key: T -> K, leq: (K, K) -> bool)
  {
    forall i, j :: 0 <= i < j < |s| ==> leq(key(s[i]), key(s[j]))
  }

  /** Inserts `x` before the first element whose key is not below `x`'s. */
  function InsertBy<T(!new), K(!new)>(x: T, s: seq<T>, key: T -> K, leq: (K, K) -> bool): (r: seq<T>)
    requires TotalPreorder(leq)
    requires SortedBy(s, key, leq)
    ensures multiset(r) == multiset(s) + multiset{x}
    ensures SortedBy(r, key, leq)
  {
    if |s| == 0 then [x]
    else if leq(key(x), key(s[0])) then [x] + s
    else
      var t := InsertBy(x, s[1..], key, leq);
      InsertedAbove(x, s, t, key, leq);
      SortedCons(s[0], t, key, leq);
      assert s == [s[0]] + s[1..];
      [s[0]] + t
  }

  /** Inserting `x` into the tail of a sorted `s`, when `x` goes after the
      head, gives elements whose keys are not below the head's. */
  lemma InsertedAbove<T(!new), K(!new)>(x: T, s: seq<T>, t: seq<T>, key: T -> K, leq: (K, K) -> bool)
    requires TotalPreorder(leq)
    requires |s| > 0 && SortedBy(s, key, leq) && !leq(key(x), key(s[0]))
    requires multiset(t) == multiset(s[1..]) + multiset{x}
    ensures forall y :: y in t ==> leq(key(s[0]), key(y))
  {
    forall y | y in t ensures leq(key(s[0]), key(y)) {
      assert y in multiset(t);
      if y != x {
        assert y in multiset(s[1..]);
        var k :| 0 <= k < |s[1..]| && s[1..][k] == y;
        assert s[k + 1] == y;
      }
    }
  }

  /** A head whose key is not above any key of a sorted tail keeps it
      sorted. */
  lemma SortedCons<T, K>(h: T, t: seq<T>, key: T -> K, leq: (K, K) -> bool)
    requires SortedBy(t, key, leq)
    requires forall y :: y in t ==> leq(key(h), key(y))
    ensures SortedBy([h] + t, key, leq)
  {
    var r := [h] + t;
    forall i, j | 0 <= i < j < |r| ensures leq(key(r[i]), key(r[j])) {
      assert r[j] == t[j - 1];
      if i > 0 {
        assert r[i] == t[i - 1];
      } else {
        assert t[j - 1] in t;
      }
    }
  }

  /** The page sort `rows.sort((a, b) => key(a).localeCompare(key(b)))`:
      a permutation of the rows whose keys ascend. */
  function SortBy<T(!new), K(!new)>(s: seq<T>, key: T -> K, leq: (K, K) -> bool): (r: seq<T>)
    requires TotalPreorder(leq)
    ensures multiset(r) == multiset(s)
    ensures |r| == |s|
    ensures SortedBy(r, key, leq)
  {
    if |s| == 0 then []
    else
      assert s == [s[0]] + s[1..];
      InsertBy(s[0], SortBy(s[1..], key, leq), key, leq)
  }

  /** A prefix of a sorted sequence is sorted, holds only its elements, and
      every element it leaves out sorts at or after every element it keeps. */
  lemma TakeSorted<T, K>(s: seq<T>, n: nat, key: T -> K, leq: (K, K) -> bool)
    requires SortedBy(s, key, leq)
    ensures SortedBy(Take(s, n), key, leq)
    ensures forall x :: x in Take(s, n) ==> x in s
    ensures forall x, i :: x in s && x !in Take(s, n) && 0 <= i < |Take(s, n)| ==> leq(key(Take(s, n)[i]), key(x))
  {
    var r := Take(s, n);
    forall i, j | 0 <= i < j < |r| ensures leq(key(r[i]), key(r[j])) {
      assert r[i] == s[i] && r[j] == s[j];
    }
    forall x | x in r ensures x in s {
      var i :| 0 <= i < |r| && r[i] == x;
      assert s[i] == x;
    }
    forall x, i | x in s && x !in r && 0 <= i < |r| ensures leq(key(r[i]), key(x)) {
      var j :| 0 <= j < |s| && s[j] == x;
      assert r[i] == s[i];
    }
  }

  /** Two permutations of each other have the same members. */
  lemma SameMembers<T>(a: seq<T>, b: seq<T>)
    requires multiset(a) == multiset(b)
    ensures forall x :: x in a <==> x in b
  {
    forall x
      ensures x in a <==> x in b
    {
      assert x in a <==> x in multiset(a);
      assert x in b <==> x in multiset(b);
    }
  }

  /** The concatenation of a sequence of sequences, in order. */
  function Concat<T>(ss: seq<seq<T>>): (r: seq<T>)
    ensures |ss| == 0 ==> r == []
  {
    if |ss| == 0 then [] else ss[0] + Concat(ss[1..])
  }

  /** Concatenation distributes over appending one more part. */
  lemma {:induction false} ConcatSnoc<T>(ss: seq<seq<T>>, last: seq<T>)
    ensures Concat(ss + [last]) == Concat(ss) + last
  {
    if |ss| == 0 {
      assert ss + [last] == [last];
    } else {
      assert (ss + [last])[1..] == ss[1..] + [last];
      ConcatSnoc(ss[1..], last);
    }
  }

  /** Minimum of two integers. */
  function Min(a: int, b: int): int
  {
    if a <= b then a else b
  }

  /** Maximum of two integers. */
  function Max(a: int, b: int): int
  {
    if a >= b then a else b
  }

  /** `s.map(f)`. */
  function MapSeq<A, B>(s: seq<A>, f: A -> B): (r: seq<B>)
    ensures |r| == |s|
    ensures forall i :: 0 <= i < |s| ==> r[i] == f(s[i])
  {
    seq(|s|, i requires 0 <= i < |s| => f(s[i]))
  }

  /** Mapping the filtered elements of a non-empty sequence: the first
      element's image when it passes, then those of the rest. */
  lemma FilterMapCons<A(!new), B>(s: seq<A>, p: A -> bool, f: A -> B)
    requires |s| > 0
    ensures p(s[0]) ==> MapSeq(Filter(s, p), f) == [f(s[0])] + MapSeq(Filter(s[1..], p), f)
    ensures !p(s[0]) ==> MapSeq(Filter(s, p), f) == MapSeq(Filter(s[1..], p), f)
  {
    if p(s[0]) {
      assert Filter(s, p) == [s[0]] + Filter(s[1..], p);
      MapSeqAppend([s[0]], Filter(s[1..], p), f);
    }
  }

  /** Mapping distributes over concatenation. */
  lemma MapSeqAppend<A, B>(a: seq<A>, b: seq<A>, f: A -> B)
    ensures MapSeq(a + b, f) == MapSeq(a, f) + MapSeq(b, f)
  {
  }

  /** Mapping every part and concatenating is mapping the concatenation. */
  lemma {:induction false} ConcatMapSeq<A, B>(ss: seq<seq<A>>, f: A -> B)
    ensures Concat(MapSeq(ss, (part: seq<A>) => MapSeq(part, f))) == MapSeq(Concat(ss), f)
  {
    if |ss| > 0 {
      var g := (part: seq<A>) => MapSeq(part, f);
      assert MapSeq(ss, g)[1..] == MapSeq(ss[1..], g);
      ConcatMapSeq(ss[1..], f);
      MapSeqAppend(ss[0], Concat(ss[1..]), f);
    }
  }
}

/** Frequency tables: count the rows per distinct value, then order by count,
    highest first (d3.rollup with `v => v.length` followed by a sort on the
    count; pandas `value_counts()`). */
module Frequency {
  import opened Wrappers
  import opened Sequences
  import opened Sorting

  /** The distinct values of `s`, in order of first appearance
      (the insertion order of the Map that d3.rollup builds). */
  function Keys<T(!new,==)>(s: seq<T>): (k: seq<T>)
    ensures Distinct(k)
    ensures forall x :: x in k <==> x in s
    decreases |s|
  {
    if s == [] then []
    else
      assert s == s[..|s| - 1] + [s[|s| - 1]];
      var rest := Keys(s[..|s| - 1]);
      if s[|s| - 1] in rest then rest else rest + [s[|s| - 1]]
  }

  /** One (value, count) entry per key, counts taken from `m`. */
  function Tally<T>(ks: seq<T>, m: multiset<T>): (t: seq<(T, nat)>)
    ensures |t| == |ks|
    ensures forall i :: 0 <= i < |ks| ==> t[i] == (ks[i], m[ks[i]])
  {
    seq(|ks|, i requires 0 <= i < |ks| => (ks[i], m[ks[i]]))
  }

  /** The map d3.rollup returns, as its list of entries. */
  function Rollup<T(!new,==)>(s: seq<T>): seq<(T, nat)>
  {
    Tally(Keys(s), multiset(s))
  }

  function CountKey<T>(e: (T, nat)): real { e.1 as real }

  /** Entries ordered by non-increasing count; equal counts keep first-appearance order. */
  function ValueCounts<T(!new,==)>(s: seq<T>): (t: seq<(T, nat)>)
    ensures |t| == |Keys(s)|
  {
    SortDesc(Rollup(s), CountKey)
  }

  /** The values of a table, in table order. */
  function Values<T>(t: seq<(T, nat)>): (v: seq<T>)
    ensures |v| == |t|
    ensures forall i :: 0 <= i < |t| ==> v[i] == t[i].0
  {
    seq(|t|, i requires 0 <= i < |t| => t[i].0)
  }

  /** Sum of the counts of a table. */
  function TotalCount<T>(t: seq<(T, nat)>): nat
  {
    if t == [] then 0 else TotalCount(t[..|t| - 1]) + t[|t| - 1].1
  }

  lemma {:induction false} TotalCountSnoc<T>(t: seq<(T, nat)>, e: (T, nat))
    ensures TotalCount(t + [e]) == TotalCount(t) + e.1
  {
    assert (t + [e])[..|t|] == t;
  }

  lemma {:induction false} TotalCountCons<T>(e: (T, nat), t: seq<(T, nat)>)
    ensures TotalCount([e] + t) == e.1 + TotalCount(t)
    decreases |t|
  {
    if t != [] {
      var init := t[..|t| - 1];
      assert [e] + t == ([e] + init) + [t[|t| - 1]];
      TotalCountSnoc([e] + init, t[|t| - 1]);
      TotalCountCons(e, init);
      assert t == init + [t[|t| - 1]];
      TotalCountSnoc(init, t[|t| - 1]);
    }
  }

  lemma {:induction false} TotalCountInsert<T>(e: (T, nat), t: seq<(T, nat)>)
    ensures TotalCount(Insert(e, t, CountKey)) == e.1 + TotalCount(t)
    decreases |t|
  {
    if t == [] {
      assert Insert(e, t, CountKey) == [e] + t;
      TotalCountCons(e, t);
    } else if CountKey(e) >= CountKey(t[0]) {
      TotalCountCons(e, t);
    } else {
      TotalCountInsert(e, t[1..]);
      TotalCountCons(t[0], Insert(e, t[1..], CountKey));
      TotalCountCons(t[0], t[1..]);
      assert t == [t[0]] + t[1..];
    }
  }

  lemma {:induction false} TotalCountSorted<T>(t: seq<(T, nat)>)
    ensures TotalCount(SortDesc(t, CountKey)) == TotalCount(t)
    decreases |t|
  {
    if t != [] {
      TotalCountSorted(t[1..]);
      TotalCountInsert(t[0], SortDesc(t[1..], CountKey));
      TotalCountCons(t[0], t[1..]);
      assert t == [t[0]] + t[1..];
    }
  }

  lemma {:induction false} TallyAddOne<T>(ks: seq<T>, m: multiset<T>, y: T)
    requires Distinct(ks)
    ensures TotalCount(Tally(ks, m + multiset{y})) == TotalCount(Tally(ks, m)) + (if y in ks then 1 else 0)
    decreases |ks|
  {
    if ks != [] {
      var init := ks[..|ks| - 1];
      assert Tally(ks, m + multiset{y})[..|init|] == Tally(init, m + multiset{y});
      assert Tally(ks, m)[..|init|] == Tally(init, m);
      assert Distinct(init);
      TallyAddOne(init, m, y);
      assert ks == init + [ks[|ks| - 1]];
      assert y in ks <==> y in init || y == ks[|ks| - 1];
    }
  }

  lemma {:induction false} TallySnoc<T>(ks: seq<T>, y: T, m: multiset<T>)
    ensures TotalCount(Tally(ks + [y], m)) == TotalCount(Tally(ks, m)) + m[y]
  {
    assert Tally(ks + [y], m) == Tally(ks, m) + [(y, m[y])];
    TotalCountSnoc(Tally(ks, m), (y, m[y]));
  }

  /** The counts of d3.rollup add up to the number of rows. */
  lemma {:induction false} RollupTotal<T(!new)>(s: seq<T>)
    ensures TotalCount(Rollup(s)) == |s|
    decreases |s|
  {
    if s != [] {
      var init, y := s[..|s| - 1], s[|s| - 1];
      assert s == init + [y];
      RollupTotal(init);
      TallyAddOne(Keys(init), multiset(init), y);
      if y !in Keys(init) {
        TallySnoc(Keys(init), y, multiset(s));
        assert multiset(init)[y] == 0;
      }
    }
  }

  /** Each entry of the sorted table is an entry of the rollup, so it
      carries the number of occurrences of its value. */
  lemma ValueCountsCounts<T(!new)>(s: seq<T>)
    ensures forall i :: 0 <= i < |ValueCounts(s)| ==>
              ValueCounts(s)[i] in Rollup(s) && ValueCounts(s)[i].1 == multiset(s)[ValueCounts(s)[i].0]
  {
    var t, r := ValueCounts(s), Rollup(s);
    forall i | 0 <= i < |t|
      ensures t[i] in r && t[i].1 == multiset(s)[t[i].0]
    {
      assert t[i] in multiset(r);
    }
  }

  /** The sorted table lists every value of `s`, each once. */
  lemma ValueCountsValues<T(!new)>(s: seq<T>)
    ensures forall x :: x in s <==> x in Values(ValueCounts(s))
    ensures Distinct(Values(ValueCounts(s)))
  {
    var t, r := ValueCounts(s), Rollup(s);
    ValueCountsCounts(s);
    forall x | x in s
      ensures x in Values(t)
    {
      var k :| 0 <= k < |Keys(s)| && Keys(s)[k] == x;
      assert r[k] in multiset(t);
      var j :| 0 <= j < |t| && t[j] == r[k];
      assert Values(t)[j] == x;
    }
    assert Distinct(r);
    PermutationDistinct(t, r);
    forall i, j | 0 <= i < j < |t|
      ensures Values(t)[i] != Values(t)[j]
    {
      assert t[i] != t[j];
    }
  }

  /** The counts of the sorted table add up to `|s|` and never increase. */
  lemma ValueCountsOrdered<T(!new)>(s: seq<T>)
    ensures TotalCount(ValueCounts(s)) == |s|
    ensures forall i, j :: 0 <= i < j < |ValueCounts(s)| ==> ValueCounts(s)[i].1 >= ValueCounts(s)[j].1
  {
    var t, r := ValueCounts(s), Rollup(s);
    RollupTotal(s);
    TotalCountSorted(r);
    forall i, j | 0 <= i < j < |t|
      ensures t[i].1 >= t[j].1
    {
      assert CountKey(t[i]) >= CountKey(t[j]);
    }
  }

  /** Every entry of the table carries the number of occurrences of its value;
      the values are exactly those of `s`, each once; the counts add up to
      `|s|`; entries are ordered by non-increasing count. */
  lemma ValueCountsSpec<T(!new)>(s: seq<T>)
    ensures forall i :: 0 <= i < |ValueCounts(s)| ==> ValueCounts(s)[i].1 == multiset(s)[ValueCounts(s)[i].0]
    ensures forall x :: x in s <==> x in Values(ValueCounts(s))
    ensures Distinct(Values(ValueCounts(s)))
    ensures |ValueCounts(s)| == |Keys(s)|
    ensures TotalCount(ValueCounts(s)) == |s|
    ensures forall i, j :: 0 <= i < j < |ValueCounts(s)| ==> ValueCounts(s)[i].1 >= ValueCounts(s)[j].1
  {
    ValueCountsCounts(s);
    ValueCountsValues(s);
    ValueCountsOrdered(s);
  }

  /** The `n` most frequent values, most frequent first. */
  function TopValues<T(!new,==)>(s: seq<T>, n: nat): (top: seq<T>)
    ensures |top| == Min(n, |Keys(s)|)
    ensures forall i :: 0 <= i < |top| ==> top[i] == ValueCounts(s)[i].0
  {
    var t := ValueCounts(s);
    Values(t)[..Min(n, |t|)]
  }

  /** The `n` most frequent values are `n` distinct values of `s` (or all of
      them, when there are fewer), and no value left out occurs more often
      than one that was kept. */
  lemma TopValuesFacts<T(!new)>(s: seq<T>, n: nat)
    ensures |TopValues(s, n)| == Min(n, |Keys(s)|)
    ensures Distinct(TopValues(s, n))
    ensures forall x :: x in TopValues(s, n) ==> x in s
    ensures forall x, i :: x in s && x !in TopValues(s, n) && 0 <= i < |TopValues(s, n)| ==>
              multiset(s)[x] <= multiset(s)[TopValues(s, n)[i]]
  {
    ValueCountsSpec(s);
    var t := ValueCounts(s);
    var m := Min(n, |t|);
    var top := TopValues(s, n);
    assert forall i :: 0 <= i < m ==> top[i] == t[i].0;
    forall x, i | x in s && x !in top && 0 <= i < |top|
      ensures multiset(s)[x] <= multiset(s)[top[i]]
    {
      var j :| 0 <= j < |t| && Values(t)[j] == x;
      assert j >= m;
    }
  }
}

/** Ranking of features by the squared sum of their PCA loadings over the
    first few components, as `get_scatterplot_data` and `find_top_features`
    compute it with numpy. */
module Loadings {
  import opened Wrappers
  import opened Sequences
  import opened Sorting

  /** How many leading elements of a length-`len` axis a slice ending at `stop` keeps
      (Python slicing: a negative stop counts from the end). */
  function SliceEnd(len: nat, stop: int): (r: nat)
    ensures r <= len
    ensures 0 <= stop ==> r == Min(stop, len)
    ensures stop < 0 ==> r == Max(0, len + stop)
  {
    if stop >= 0 then Min(stop, len) else Max(0, len + stop)
  }

  /** Sum of the squares of `v`. */
  function SumOfSquares(v: seq<real>): (r: real)
    ensures r >= 0.0
  {
    if v == [] then 0.0 else SumOfSquares(v[..|v| - 1]) + v[|v| - 1] * v[|v| - 1]
  }

  /** Every row of `m` has `width` entries. */
  predicate Rectangular(m: seq<seq<real>>, width: nat)
  {
    forall r :: 0 <= r < |m| ==> |m[r]| == width
  }

  /** Column `j` of the first `d` rows of `m`. */
  function ColumnPrefix(m: seq<seq<real>>, width: nat, j: nat, d: nat): (col: seq<real>)
    requires Rectangular(m, width) && j < width && d <= |m|
    ensures |col| == d
    ensures forall r :: 0 <= r < d ==> col[r] == m[r][j]
  {
    seq(d, r requires 0 <= r < d => m[r][j])
  }

  /** Sums of squares down each column over the first `d` rows: one non-negative sum per column. */
  function ColumnSquaredSums(m: seq<seq<real>>, width: nat, d: int): (sums: seq<real>)
    requires Rectangular(m, width)
    ensures |sums| == width
    ensures forall j :: 0 <= j < width ==> sums[j] == SumOfSquares(ColumnPrefix(m, width, j, SliceEnd(|m|, d)))
    ensures forall j :: 0 <= j < width ==> sums[j] >= 0.0
  {
    var rows := SliceEnd(|m|, d);
    seq(width, j requires 0 <= j < width => SumOfSquares(ColumnPrefix(m, width, j, rows)))
  }

  /** Sums of squares along each row over its first `d` entries: one non-negative sum per row. */
  function RowSquaredSums(m: seq<seq<real>>, width: nat, d: int): (sums: seq<real>)
    requires Rectangular(m, width)
    ensures |sums| == |m|
    ensures forall i :: 0 <= i < |m| ==> sums[i] == SumOfSquares(m[i][..SliceEnd(width, d)])
    ensures forall i :: 0 <= i < |m| ==> sums[i] >= 0.0
  {
    var cols := SliceEnd(width, d);
    seq(|m|, i requires 0 <= i < |m| => SumOfSquares(m[i][..cols]))
  }

  /** The score of an index, as the sort's key. */
  function ScoreOf(scores: seq<real>): nat -> real
  {
    (i: nat) => if i < |scores| then scores[i] else 0.0
  }

  function Range(n: nat): (r: seq<nat>)
    ensures |r| == n && Distinct(r)
    ensures forall i :: 0 <= i < n ==> r[i] == i
  {
    seq(n, i requires 0 <= i < n => i)
  }

  /** The indices of the `k` largest scores, highest first (`argsort` and a slice). */
  function TopIndices(scores: seq<real>, k: nat): (top: seq<nat>)
    ensures |top| == Min(k, |scores|)
    ensures Distinct(top)
    ensures forall i :: 0 <= i < |top| ==> top[i] < |scores|
    ensures forall i, j :: 0 <= i < j < |top| ==> scores[top[i]] >= scores[top[j]]
    ensures forall x, i :: 0 <= x < |scores| && x !in top && 0 <= i < |top| ==> scores[x] <= scores[top[i]]
  {
    var order := SortDesc(Range(|scores|), ScoreOf(scores));
    TopIndicesFacts(scores, order);
    OmittedNotHigher(scores, order, Min(k, |scores|));
    order[..Min(k, |scores|)]
  }

  lemma TopIndicesFacts(scores: seq<real>, order: seq<nat>)
    requires order == SortDesc(Range(|scores|), ScoreOf(scores))
    ensures Distinct(order) && |order| == |scores|
    ensures forall i :: 0 <= i < |order| ==> order[i] < |scores|
    ensures forall i, j :: 0 <= i < j < |order| ==> scores[order[i]] >= scores[order[j]]
    ensures forall x :: 0 <= x < |scores| ==> x in order
  {
    var range := Range(|scores|);
    PermutationDistinct(order, range);
    forall i | 0 <= i < |order|
      ensures order[i] < |scores|
    {
      assert order[i] in multiset(range);
    }
    forall i, j | 0 <= i < j < |order|
      ensures scores[order[i]] >= scores[order[j]]
    {
      assert ScoreOf(scores)(order[i]) >= ScoreOf(scores)(order[j]);
    }
    forall x | 0 <= x < |scores|
      ensures x in order
    {
      assert range[x] == x;
      assert x in multiset(order);
    }
  }

  /** An index left out of a prefix of the sorted order scores no higher than any kept one. */
  lemma OmittedNotHigher(scores: seq<real>, order: seq<nat>, m: nat)
    requires m <= |order|
    requires forall i :: 0 <= i < |order| ==> order[i] < |scores|
    requires forall i, j :: 0 <= i < j < |order| ==> scores[order[i]] >= scores[order[j]]
    requires forall x :: 0 <= x < |scores| ==> x in order
    ensures forall x, i :: 0 <= x < |scores| && x !in order[..m] && 0 <= i < m ==> scores[x] <= scores[order[i]]
  {
    forall x, i | 0 <= x < |scores| && x !in order[..m] && 0 <= i < m
      ensures scores[x] <= scores[order[i]]
    {
      assert x in order;
      var p :| 0 <= p < |order| && order[p] == x;
      assert p >= m;
    }
  }
}

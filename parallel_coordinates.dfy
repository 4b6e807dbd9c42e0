/** The axis and selection logic of the parallel-coordinates plot: the axis
    order, the nearest-axis search at the end of a drag, the reorder by two
    `Array.prototype.splice` calls on a copy, the legend toggle and the
    per-line highlight and value list. */
module ParallelCoordinates {
  import opened Wrappers
  import opened Sequences

  /** `columnOrder` when non-empty, the dataset's columns otherwise. */
  function OrderedColumns(columnOrder: seq<string>, columns: seq<string>): (axes: seq<string>)
    ensures |columnOrder| > 0 ==> axes == columnOrder
    ensures |columnOrder| == 0 ==> axes == columns
  {
    if |columnOrder| > 0 then columnOrder else columns
  }

  function Abs(x: real): (r: real)
    ensures r >= 0.0 && (r == x || r == -x)
  {
    if x < 0.0 then -x else x
  }

  /** The horizontal distance between an axis position and the drop point. */
  function Distance<T>(pos: T -> real, dragX: real, c: T): real
  {
    Abs(pos(c) - dragX)
  }

  /** The loop over the axes with `minDistance` starting at `Infinity`
      (`best == None`) and a strict `<`: the result is the first axis at the
      least distance from the drop point. Handlers exist only on drawn axes,
      so there is at least one. */
  method NearestColumn<T>(columns: seq<T>, pos: T -> real, dragX: real) returns (nearest: T)
    requires |columns| > 0
    ensures exists i :: 0 <= i < |columns| && columns[i] == nearest &&
              (forall j :: 0 <= j < |columns| ==> Distance(pos, dragX, columns[i]) <= Distance(pos, dragX, columns[j])) &&
              (forall j :: 0 <= j < i ==> Distance(pos, dragX, columns[i]) < Distance(pos, dragX, columns[j]))
  {
    nearest := columns[0];
    var best: Option<real> := None;
    ghost var at := 0;
    for k := 0 to |columns|
      invariant k == 0 ==> best == None
      invariant k > 0 ==> best.Some? && at < k && columns[at] == nearest && best.value == Distance(pos, dragX, nearest)
      invariant k > 0 ==> forall j :: 0 <= j < k ==> best.value <= Distance(pos, dragX, columns[j])
      invariant k > 0 ==> forall j :: 0 <= j < at ==> best.value < Distance(pos, dragX, columns[j])
    {
      var d := Distance(pos, dragX, columns[k]);
      if best.None? || d < best.value {
        best := Some(d);
        nearest := columns[k];
        at := k;
      }
    }
  }

  /** `Array.prototype.indexOf`: the first position of `x`, or -1. */
  function IndexOf<T(==)>(s: seq<T>, x: T): (i: int)
    ensures -1 <= i < |s|
    ensures i == -1 <==> x !in s
    ensures 0 <= i ==> s[i] == x && x !in s[..i]
  {
    if s == [] then -1
    else if s[0] == x then 0
    else
      var j := IndexOf(s[1..], x);
      assert s[1..][..Max(j, 0)] == s[..Max(j, 0) + 1][1..];
      if j == -1 then -1 else j + 1
  }

  /** Where a splice starts: a negative start counts from the end, and the
      result is clamped to the array. */
  function SpliceStart(len: nat, start: int): (k: nat)
    ensures k <= len
    ensures 0 <= start <= len ==> k == start
    ensures start < 0 ==> k == Max(len + start, 0)
    ensures start > len ==> k == len
  {
    if start < 0 then Max(len + start, 0) else Min(start, len)
  }

  /** Splicing one element out: removes the element at the start, if any. */
  function SpliceRemove<T>(s: seq<T>, start: int): (r: seq<T>)
    ensures SpliceStart(|s|, start) < |s| ==> r == s[..SpliceStart(|s|, start)] + s[SpliceStart(|s|, start) + 1..]
    ensures SpliceStart(|s|, start) == |s| ==> r == s
  {
    var k := SpliceStart(|s|, start);
    if k < |s| then s[..k] + s[k + 1..] else s
  }

  /** Splicing one element in: inserts `x` before the start. */
  function SpliceInsert<T>(s: seq<T>, start: int, x: T): (r: seq<T>)
    ensures |r| == |s| + 1
    ensures r[SpliceStart(|s|, start)] == x
    ensures r == s[..SpliceStart(|s|, start)] + [x] + s[SpliceStart(|s|, start)..]
  {
    var k := SpliceStart(|s|, start);
    s[..k] + [x] + s[k..]
  }

  /** The reorder: no update when the drop lands on the dragged axis;
      otherwise a copy with the dragged axis taken out at its index and put
      back at the nearest axis's index, both indices read before either splice. */
  function Reordered<T(==)>(order: seq<T>, dragStart: T, nearest: T): (update: Option<seq<T>>)
    ensures update.None? <==> nearest == dragStart
  {
    if nearest == dragStart then None
    else
      var dragIdx := IndexOf(order, dragStart);
      var dropIdx := IndexOf(order, nearest);
      Some(SpliceInsert(SpliceRemove(order, dragIdx), dropIdx, dragStart))
  }

  /** Taking one element out leaves the others. */
  lemma RemoveMultiset<T>(s: seq<T>, k: nat)
    requires k < |s|
    ensures multiset(s[..k] + s[k + 1..]) + multiset{s[k]} == multiset(s)
  {
    assert s == s[..k] + [s[k]] + s[k + 1..];
  }

  /** When both axes are in the order and differ, the update is a
      permutation of the order, the dragged axis lands at the nearest axis's
      original index, and taking it out again gives the order with it taken
      out of its original place: every other axis keeps its relative order. */
  lemma ReorderMovesDragged<T>(order: seq<T>, dragStart: T, nearest: T)
    requires dragStart in order && nearest in order && dragStart != nearest
    ensures var update := Reordered(order, dragStart, nearest);
      update.Some? &&
      |update.value| == |order| &&
      multiset(update.value) == multiset(order) &&
      update.value[IndexOf(order, nearest)] == dragStart &&
      SpliceRemove(update.value, IndexOf(order, nearest)) == SpliceRemove(order, IndexOf(order, dragStart))
  {
    var dragIdx := IndexOf(order, dragStart);
    var dropIdx := IndexOf(order, nearest);
    var removed := SpliceRemove(order, dragIdx);
    assert removed == order[..dragIdx] + order[dragIdx + 1..];
    RemoveMultiset(order, dragIdx);
    var r := SpliceInsert(removed, dropIdx, dragStart);
    assert r == removed[..dropIdx] + [dragStart] + removed[dropIdx..];
    assert r[..dropIdx] + r[dropIdx + 1..] == removed;
  }

  /** The drag-end handler: the nearest axis, then the reorder. `dragStart`
      is the value of `dragStartColumn` the handler closed over. */
  method OnDragEnd<T(==)>(order: seq<T>, pos: T -> real, dragX: real, dragStart: T)
    returns (nearest: T, update: Option<seq<T>>)
    requires |order| > 0
    ensures exists i :: 0 <= i < |order| && order[i] == nearest &&
              (forall j :: 0 <= j < |order| ==> Distance(pos, dragX, order[i]) <= Distance(pos, dragX, order[j])) &&
              (forall j :: 0 <= j < i ==> Distance(pos, dragX, order[i]) < Distance(pos, dragX, order[j]))
    ensures update == Reordered(order, dragStart, nearest)
  {
    nearest := NearestColumn(order, pos, dragX);
    if nearest == dragStart {
      update := None;
    } else {
      var newOrder := order;
      var dragIdx := IndexOf(newOrder, dragStart);
      var dropIdx := IndexOf(newOrder, nearest);
      newOrder := SpliceRemove(newOrder, dragIdx);
      newOrder := SpliceInsert(newOrder, dropIdx, dragStart);
      update := Some(newOrder);
    }
  }

  /** The handler is attached when the effect runs, and `dragStartColumn`
      is not among the effect's dependencies, so on the first drag it still
      reads the initial `null` (`None` here). The drop then takes out the
      last axis (`splice(-1, 1)`) and puts `null` in its place at the drop. */
  lemma FirstDragDropsLastAxis()
    ensures Reordered([Some("a"), Some("b"), Some("c")], None, Some("a")) == Some([None, Some("a"), Some("b")])
  {
    var order := [Some("a"), Some("b"), Some("c")];
    assert IndexOf(order, None) == -1;
    assert IndexOf(order, Some("a")) == 0;
    var removed := SpliceRemove(order, -1);
    assert removed == [Some("a"), Some("b")];
    assert SpliceInsert(removed, 0, None) == [None] + removed;
    assert Reordered(order, None, Some("a")) == Some(SpliceInsert(removed, 0, None));
    assert [None] + removed == [None, Some("a"), Some("b")];
  }

  /** The handler as evidently intended: it reorders by the axis it is
      attached to, which is always one of the axes, so a drop on another
      axis moves exactly that axis there and keeps every axis. */
  method OnAxisDragEnd(order: seq<string>, pos: string -> real, dragX: real, column: string)
    returns (nearest: string, update: Option<seq<string>>)
    requires column in order
    ensures exists i :: 0 <= i < |order| && order[i] == nearest &&
              (forall j :: 0 <= j < |order| ==> Distance(pos, dragX, order[i]) <= Distance(pos, dragX, order[j])) &&
              (forall j :: 0 <= j < i ==> Distance(pos, dragX, order[i]) < Distance(pos, dragX, order[j]))
    ensures nearest == column ==> update.None?
    ensures nearest != column ==>
              update.Some? && |update.value| == |order| && multiset(update.value) == multiset(order) &&
              update.value[IndexOf(order, nearest)] == column &&
              SpliceRemove(update.value, IndexOf(order, nearest)) == SpliceRemove(order, IndexOf(order, column))
  {
    nearest, update := OnDragEnd(order, pos, dragX, column);
    if nearest != column {
      ReorderMovesDragged(order, column, nearest);
    }
  }

  /** The predicate passed to `filter` when a cluster is deselected. */
  function Other<T(==)>(cluster: T): T -> bool
  {
    c => c != cluster
  }

  /** The legend click: a selected cluster is filtered out, an unselected one appended. */
  function Toggle<T(!new,==)>(prev: seq<T>, cluster: T): (next: seq<T>)
    ensures cluster in prev ==>
              cluster !in next && IsSubseq(next, prev) &&
              forall c :: c != cluster ==> multiset(next)[c] == multiset(prev)[c]
    ensures cluster !in prev ==> next == prev + [cluster]
  {
    if cluster in prev then Filter(prev, Other(cluster)) else prev + [cluster]
  }

  /** Selecting an unselected cluster and deselecting it again gives back
      the selection as it was. */
  lemma ToggleTwiceRestores<T(!new)>(prev: seq<T>, cluster: T)
    requires cluster !in prev
    ensures Toggle(Toggle(prev, cluster), cluster) == prev
  {
    var once := prev + [cluster];
    var twice := Toggle(once, cluster);
    assert twice == Filter(once, Other(cluster));
    SubseqDropLast(twice, prev, cluster);
    assert multiset(twice) == multiset(prev) by {
      forall c
        ensures multiset(twice)[c] == multiset(prev)[c]
      {
        if c == cluster {
          assert multiset(twice)[c] == 0;
        }
      }
    }
    assert |twice| == |multiset(twice)|;
    SubseqFull(twice, prev);
  }

  /** A selection without repeats stays without repeats. */
  lemma ToggleKeepsDistinct<T(!new)>(prev: seq<T>, cluster: T)
    requires Distinct(prev)
    ensures Distinct(Toggle(prev, cluster))
  {
    var next := Toggle(prev, cluster);
    if cluster in prev {
      forall i, j | 0 <= i < j < |next|
        ensures next[i] != next[j]
      {
        if next[i] == next[j] {
          RepeatedTwice(next, i, j);
          DistinctAtMostOnce(prev, next[i]);
          assert false;
        }
      }
    }
  }

  /** A line is highlighted when no cluster is selected or its own cluster is. */
  predicate IsSelected<T(==)>(selected: seq<T>, cluster: T)
    ensures IsSelected(selected, cluster) <==>
              |selected| == 0 || exists i :: 0 <= i < |selected| && selected[i] == cluster
  {
    |selected| == 0 || cluster in selected
  }

  /** Clicking an unselected cluster highlights its lines; clicking the only
      selected cluster off highlights every line again. */
  lemma ToggleHighlight<T(!new)>(prev: seq<T>, cluster: T)
    ensures cluster !in prev ==> IsSelected(Toggle(prev, cluster), cluster)
    ensures prev == [cluster] ==> forall c :: IsSelected(Toggle(prev, cluster), c)
  {
    if prev == [cluster] {
      assert |Toggle(prev, cluster)| == 0;
    }
  }

  /** `lineData`: one entry per axis, `null` (`None`) where the row has no value. */
  function LineData<V>(axes: seq<string>, values: map<string, V>): (line: seq<Option<V>>)
    ensures |line| == |axes|
    ensures forall i :: 0 <= i < |axes| ==> (line[i].Some? <==> axes[i] in values)
    ensures forall i :: 0 <= i < |axes| && axes[i] in values ==> line[i] == Some(values[axes[i]])
  {
    seq(|axes|, i requires 0 <= i < |axes| => if axes[i] in values then Some(values[axes[i]]) else None)
  }
}

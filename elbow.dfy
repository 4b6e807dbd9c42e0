/** The optimal-k rule shared by both k-means servers: the inertia of one
    seeded k-means fit per k = 1..10, the knee detector's elbow when it reports
    one, otherwise the k at the first maximum of the second difference. The
    detector and the fits are library code: they enter as functions. */
module Elbow {
  import opened Wrappers

  /** The k values tried: 1 through 10. */
  function KRange(): (ks: seq<int>)
    ensures |ks| == 10
    ensures forall i :: 0 <= i < 10 ==> ks[i] == i + 1
  {
    seq(10, i requires 0 <= i < 10 => i + 1)
  }

  /** The inertia curve for k = 1..10, entry i for k = i + 1. */
  function CurveOf(inertia: int -> real): (c: seq<real>)
    ensures |c| == |KRange()|
  {
    seq(10, i requires 0 <= i < 10 => inertia(i + 1))
  }

  /** The loop that records, for each k, the inertia of a seeded k-means fit;
      `inertia` is that fit as a function of k (the seed is fixed). */
  method InertiaCurve(inertia: int -> real) returns (scores: seq<real>)
    ensures |scores| == |KRange()|
    ensures forall i :: 0 <= i < |scores| ==> scores[i] == inertia(KRange()[i])
    ensures scores == CurveOf(inertia)
  {
    var ks := KRange();
    scores := [];
    for j := 0 to |ks|
      invariant |scores| == j
      invariant forall i :: 0 <= i < j ==> scores[i] == inertia(ks[i])
    {
      scores := scores + [inertia(ks[j])];
    }
  }

  /** The first difference of a list. */
  function Diff(s: seq<real>): (d: seq<real>)
    ensures |d| == if |s| == 0 then 0 else |s| - 1
    ensures forall i :: 0 <= i < |d| ==> d[i] == s[i + 1] - s[i]
  {
    if |s| <= 1 then [] else seq(|s| - 1, i requires 0 <= i < |s| - 1 => s[i + 1] - s[i])
  }

  /** The second difference of a list. */
  function SecondDiff(s: seq<real>): seq<real>
  {
    Diff(Diff(s))
  }

  /** The discrete second derivative at `i`, written out. */
  function Curvature(s: seq<real>, i: nat): real
    requires i + 2 < |s|
  {
    s[i] - 2.0 * s[i + 1] + s[i + 2]
  }

  /** The second difference has two fewer entries than `s`, and entry i is s[i] - 2 s[i+1] + s[i+2]. */
  lemma SecondDiffAt(s: seq<real>)
    requires |s| >= 2
    ensures |SecondDiff(s)| == |s| - 2
    ensures forall i :: 0 <= i < |s| - 2 ==> SecondDiff(s)[i] == Curvature(s, i)
  {
  }

  /** The first index of the maximum (numpy's argmax). */
  function ArgMax(d: seq<real>): (i: nat)
    requires |d| > 0
    ensures i < |d|
    ensures forall j :: 0 <= j < |d| ==> d[j] <= d[i]
    ensures forall j :: 0 <= j < i ==> d[j] < d[i]
  {
    if |d| == 1 then 0
    else
      var m := ArgMax(d[..|d| - 1]);
      if d[|d| - 1] > d[m] then |d| - 1 else m
  }

  /** The fallback: the k one place after the first maximum of the second difference. */
  function FallbackK(scores: seq<real>): (k: int)
    requires |scores| == |KRange()|
    ensures 2 <= k <= 9
    ensures forall j :: 0 <= j < 8 ==> Curvature(scores, j) <= Curvature(scores, k - 2)
    ensures forall j :: 0 <= j < k - 2 ==> Curvature(scores, j) < Curvature(scores, k - 2)
  {
    SecondDiffAt(scores);
    KRange()[ArgMax(SecondDiff(scores)) + 1]
  }

  /** The elbow when the detector reports one, else the fallback. The fallback
      lies in 2..9 and is the k that sits at the first largest curvature. */
  function SelectK(scores: seq<real>, elbow: Option<int>): (k: int)
    requires |scores| == |KRange()|
    ensures elbow.Some? ==> k == elbow.value
    ensures elbow.None? ==> 2 <= k <= 9
    ensures elbow.None? ==> forall j :: 0 <= j < 8 ==> Curvature(scores, j) <= Curvature(scores, k - 2)
    ensures elbow.None? ==> forall j :: 0 <= j < k - 2 ==> Curvature(scores, j) < Curvature(scores, k - 2)
    ensures (elbow.None? || 1 <= elbow.value <= 10) ==> 1 <= k <= |KRange()|
  {
    SecondDiffAt(scores);
    match elbow
    case Some(e) => e
    case None => FallbackK(scores)
  }

  lemma LineHasNoCurvature(a: real, b: real, x: real)
    ensures (a + b * x) - 2.0 * (a + b * (x + 1.0)) + (a + b * (x + 2.0)) == 0.0
  {
  }

  /** A straight line has zero curvature at every point. */
  lemma LineCurvatureZero(scores: seq<real>, a: real, b: real, j: nat)
    requires j + 2 < |scores|
    requires forall i :: 0 <= i < |scores| ==> scores[i] == a + b * (i as real)
    ensures Curvature(scores, j) == 0.0
  {
    var x := j as real;
    assert scores[j] == a + b * x;
    assert scores[j + 1] == a + b * (x + 1.0);
    assert scores[j + 2] == a + b * (x + 2.0);
    LineHasNoCurvature(a, b, x);
  }

  /** A straight-line curve (a flat one included) has zero curvature
      everywhere, so the fallback picks its first candidate, k = 2. */
  lemma LinearCurveFallsBackToTwo(scores: seq<real>, a: real, b: real)
    requires |scores| == |KRange()|
    requires forall i :: 0 <= i < |scores| ==> scores[i] == a + b * (i as real)
    ensures SelectK(scores, None) == 2
  {
    var k := SelectK(scores, None);
    if k > 2 {
      LineCurvatureZero(scores, a, b, 0);
      LineCurvatureZero(scores, a, b, k - 2);
    }
  }
}

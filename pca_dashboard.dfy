/** The Dash PCA dashboard of the second assignment: how many components are
    kept, the cumulative explained variance drawn on the scree plot, and the
    top-four feature table for the dimensionality on the slider. */
module PcaDashboard {
  import opened Wrappers
  import opened Sequences
  import opened Loadings

  /** The component count: the least of the feature count, the row count and ten. */
  function ComponentCount(nFeatures: nat, nRows: nat): (n: nat)
    ensures n <= nFeatures && n <= nRows && n <= 10
    ensures n == nFeatures || n == nRows || n == 10
  {
    Min(Min(nFeatures, nRows), 10)
  }

  /** The sum of a list of ratios. */
  function Sum(s: seq<real>): real
  {
    if s == [] then 0.0 else s[0] + Sum(s[1..])
  }

  /** The cumulative sum, as the running total `acc` carried along the list. */
  function CumSumFrom(acc: real, s: seq<real>): (c: seq<real>)
    ensures |c| == |s|
    decreases |s|
  {
    if s == [] then [] else [acc + s[0]] + CumSumFrom(acc + s[0], s[1..])
  }

  function CumSum(s: seq<real>): (c: seq<real>)
    ensures |c| == |s|
  {
    CumSumFrom(0.0, s)
  }

  /** Entry i of the running total is the sum of the first i + 1 entries. */
  lemma {:induction false} CumSumFromIsPrefixSum(acc: real, s: seq<real>, i: nat)
    requires i < |s|
    ensures CumSumFrom(acc, s)[i] == acc + Sum(s[..i + 1])
    decreases |s|
  {
    assert s[..i + 1][1..] == s[1..][..i];
    if i > 0 {
      CumSumFromIsPrefixSum(acc + s[0], s[1..], i - 1);
    }
  }

  /** Entry i of the cumulative sum is the sum of the first i + 1 ratios. */
  lemma CumSumIsPrefixSum(s: seq<real>)
    ensures forall i :: 0 <= i < |s| ==> CumSum(s)[i] == Sum(s[..i + 1])
  {
    forall i | 0 <= i < |s|
      ensures CumSum(s)[i] == Sum(s[..i + 1])
    {
      CumSumFromIsPrefixSum(0.0, s, i);
    }
  }

  /** The cumulative variance at the slider's position, one before it, with Python's indexing: a negative
      index counts from the end, and one out of range raises (`None`). */
  function CumulativeVarianceAt(ratios: seq<real>, selectedDim: int): (v: Option<real>)
    ensures 1 <= selectedDim <= |ratios| ==> v == Some(Sum(ratios[..selectedDim]))
    ensures selectedDim > |ratios| ==> v == None
    ensures 0 < |ratios| && selectedDim == 0 ==> v == Some(Sum(ratios))
    ensures selectedDim < 1 - |ratios| ==> v == None
  {
    CumSumIsPrefixSum(ratios);
    var n := |ratios|;
    var idx := selectedDim - 1;
    if -n <= idx < n then
      var pos := if idx < 0 then idx + n else idx;
      assert ratios[..n] == ratios;
      Some(CumSum(ratios)[pos])
    else None
  }

  /** Ratios are non-negative, so the cumulative share never decreases as
      the slider moves right. */
  lemma {:induction false} SumPrefixMonotone(s: seq<real>, d: nat, e: nat)
    requires d <= e <= |s|
    requires forall i :: 0 <= i < |s| ==> s[i] >= 0.0
    ensures Sum(s[..d]) <= Sum(s[..e])
    decreases |s|
  {
    if e > 0 {
      var tail := s[1..];
      forall i | 0 <= i < |tail|
        ensures tail[i] >= 0.0
      {
        assert tail[i] == s[i + 1];
      }
      assert s[..e][1..] == tail[..e - 1];
      if d > 0 {
        assert s[..d][1..] == tail[..d - 1];
        SumPrefixMonotone(tail, d - 1, e - 1);
      } else {
        var rest := tail[..e - 1];
        assert forall i :: 0 <= i < |rest| ==> rest[i] == tail[i];
        SumNonNegative(rest);
      }
    }
  }

  lemma {:induction false} SumNonNegative(s: seq<real>)
    requires forall i :: 0 <= i < |s| ==> s[i] >= 0.0
    ensures Sum(s) >= 0.0
  {
    if s != [] {
      var tail := s[1..];
      forall i | 0 <= i < |tail|
        ensures tail[i] >= 0.0
      {
        assert tail[i] == s[i + 1];
      }
      SumNonNegative(tail);
    }
  }

  /** The slider runs from 1 to the number of components, so the
      dashboard's reading always exists and never decreases along it. */
  lemma SliderVarianceMonotone(ratios: seq<real>, d: int, e: int)
    requires 1 <= d <= e <= |ratios|
    requires forall i :: 0 <= i < |ratios| ==> ratios[i] >= 0.0
    ensures CumulativeVarianceAt(ratios, d).Some? && CumulativeVarianceAt(ratios, e).Some?
    ensures CumulativeVarianceAt(ratios, d).value <= CumulativeVarianceAt(ratios, e).value
  {
    SumPrefixMonotone(ratios, d, e);
  }

  /** The clamp of the requested dimension to the loadings' width. */
  function ClampDim(selectedDim: int, width: nat): (d: int)
    ensures d <= width
    ensures selectedDim <= width ==> d == selectedDim
  {
    if selectedDim > width then width else selectedDim
  }

  datatype TopFeature = TopFeature(feature: string, squaredSum: real)

  /** Rows of the feature table for the ranked indices `idx`. */
  function FeatureRows(features: seq<string>, sums: seq<real>, idx: seq<nat>): (rows: seq<TopFeature>)
    requires |features| == |sums| && forall i :: 0 <= i < |idx| ==> idx[i] < |sums|
    ensures |rows| == |idx|
    ensures forall i :: 0 <= i < |idx| ==> rows[i] == TopFeature(features[idx[i]], sums[idx[i]])
  {
    seq(|idx|, i requires 0 <= i < |idx| => TopFeature(features[idx[i]], sums[idx[i]]))
  }

  /** The table built from the top four indices: one row per kept feature
      (four, or all of them when there are fewer), names and values from the
      same feature, highest value first, different features when the names
      are different, and no feature left out with a higher value. */
  lemma TopFeatureFacts(features: seq<string>, sums: seq<real>)
    requires |features| == |sums|
    ensures var top := FeatureRows(features, sums, TopIndices(sums, 4));
      |top| == Min(4, |features|) &&
      (forall i :: 0 <= i < |top| ==>
         (exists j :: 0 <= j < |features| && top[i].feature == features[j] && top[i].squaredSum == sums[j])) &&
      (forall i, j :: 0 <= i < j < |top| ==> top[i].squaredSum >= top[j].squaredSum) &&
      (Distinct(features) ==> forall i, j :: 0 <= i < j < |top| ==> top[i].feature != top[j].feature) &&
      (forall j, i ::
         (0 <= j < |features| && 0 <= i < |top| && (forall t :: 0 <= t < |top| ==> top[t].feature != features[j])) ==>
         sums[j] <= top[i].squaredSum)
  {
    var idx := TopIndices(sums, 4);
    var top := FeatureRows(features, sums, idx);
    forall i | 0 <= i < |top|
      ensures exists j :: 0 <= j < |features| && top[i].feature == features[j] && top[i].squaredSum == sums[j]
    {
      assert top[i].feature == features[idx[i]];
    }
    if Distinct(features) {
      forall i, j | 0 <= i < j < |top|
        ensures top[i].feature != top[j].feature
      {
        assert idx[i] != idx[j];
      }
    }
    forall j | 0 <= j < |features| && (forall t :: 0 <= t < |top| ==> top[t].feature != features[j])
      ensures j !in idx
    {
    }
  }

  /** `find_top_features`: `loadings` has one row per feature and `width`
      columns (one per component). The result has up to four rows, highest
      score first; a row's name and value belong to the same feature. */
  function FindTopFeatures(loadings: seq<seq<real>>, width: nat, features: seq<string>, selectedDim: int): (top: seq<TopFeature>)
    requires Rectangular(loadings, width) && |features| == |loadings|
    ensures |top| == Min(4, |features|)
    ensures forall i :: 0 <= i < |top| ==>
              (exists j :: 0 <= j < |features| && top[i].feature == features[j] &&
                 top[i].squaredSum == RowSquaredSums(loadings, width, ClampDim(selectedDim, width))[j])
    ensures forall i :: 0 <= i < |top| ==> top[i].squaredSum >= 0.0
    ensures forall i, j :: 0 <= i < j < |top| ==> top[i].squaredSum >= top[j].squaredSum
    ensures Distinct(features) ==> forall i, j :: 0 <= i < j < |top| ==> top[i].feature != top[j].feature
    ensures forall j, i ::
              (0 <= j < |features| && 0 <= i < |top| && (forall t :: 0 <= t < |top| ==> top[t].feature != features[j])) ==>
              RowSquaredSums(loadings, width, ClampDim(selectedDim, width))[j] <= top[i].squaredSum
  {
    var sums := RowSquaredSums(loadings, width, ClampDim(selectedDim, width));
    TopFeatureFacts(features, sums);
    FeatureRows(features, sums, TopIndices(sums, 4))
  }
}

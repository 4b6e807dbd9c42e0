/** The PCA / k-means server of the second assignment: the placeholder filter
    on load, the elbow-method endpoint and the top-attribute scatterplot data. */
module GamesPca {
  import opened Wrappers
  import opened Sequences
  import opened Elbow
  import opened Loadings

  /** `selected_columns`; PCA keeps one component per column. */
  const SelectedColumns: seq<string> :=
    ["Metascore", "Userscore", "Year", "Rank", "Positive %", "Mixed %", "Negative %",
     "NA_Sales", "Global_Sales", "User_Count"]

  const NComponents: nat := |SelectedColumns|

  /** `compute_elbow_method`: ten inertia scores in ascending k, and the elbow of
      the detector (`detect`, the knee locator's `elbow`) or the fallback. */
  method ComputeElbowMethod(inertia: int -> real, detect: seq<real> -> Option<int>)
    returns (optimalK: int, mseScores: seq<real>)
    ensures |mseScores| == 10
    ensures forall i :: 0 <= i < 10 ==> mseScores[i] == inertia(i + 1)
    ensures detect(mseScores).Some? ==> optimalK == detect(mseScores).value
    ensures detect(mseScores).None? ==> 2 <= optimalK <= 9
    ensures optimalK == SelectK(mseScores, detect(mseScores))
  {
    mseScores := InertiaCurve(inertia);
    var elbow := detect(mseScores);
    if elbow.None? {
      optimalK := FallbackK(mseScores);
    } else {
      optimalK := elbow.value;
    }
  }

  datatype KMeansInfo = KMeansInfo(optimalK: int, mseScores: seq<real>, columns: seq<string>, selectedComponents: seq<int>)

  /** `/api/kmeans`: the response carries the very score list the k was chosen from. */
  method GetKMeansInfo(comp1: int, comp2: int, inertia: int -> real, detect: seq<real> -> Option<int>)
    returns (resp: KMeansInfo)
    ensures |resp.mseScores| == 10
    ensures forall i :: 0 <= i < 10 ==> resp.mseScores[i] == inertia(i + 1)
    ensures resp.optimalK == SelectK(resp.mseScores, detect(resp.mseScores))
    ensures resp.columns == SelectedColumns && resp.selectedComponents == [comp1, comp2]
  {
    var elbowK, mseScores := ComputeElbowMethod(inertia, detect);
    resp := KMeansInfo(elbowK, mseScores, SelectedColumns, [comp1, comp2]);
  }

  /** The requested dimension count, capped at the component count and then used as a slice end:
      the number of components whose loadings are summed. */
  function ComponentsUsed(di: int): (d: nat)
    ensures d <= NComponents
    ensures 0 <= di ==> d == Min(di, NComponents)
    ensures di < 0 ==> d == Max(0, NComponents + di)
  {
    SliceEnd(NComponents, Min(di, NComponents))
  }

  datatype ScatterplotData = ScatterplotData(topAttributes: seq<string>, squaredSums: seq<real>, scatterData: seq<seq<real>>)

  lemma SelectedColumnsDistinct()
    ensures Distinct(SelectedColumns)
  {
  }

  /** Index-array selection: the entries of `xs` at the positions `top`, in that order. */
  function Pick<T>(xs: seq<T>, top: seq<nat>): (r: seq<T>)
    requires forall i :: 0 <= i < |top| ==> top[i] < |xs|
    ensures |r| == |top| && forall i :: 0 <= i < |top| ==> r[i] == xs[top[i]]
  {
    seq(|top|, i requires 0 <= i < |top| => xs[top[i]])
  }

  /** Names picked at distinct positions of a list of distinct names are
      distinct, and a position whose name was not picked was not picked. */
  lemma PickedNames(names: seq<string>, top: seq<nat>)
    requires Distinct(names) && Distinct(top)
    requires forall i :: 0 <= i < |top| ==> top[i] < |names|
    ensures Distinct(Pick(names, top))
    ensures forall j :: 0 <= j < |names| && names[j] !in Pick(names, top) ==> j !in top
  {
  }

  /** `/api/scatterplot` without the cluster labels: the four columns with the
      largest squared loadings over the first `di` components, highest first,
      their sums position by position, and those columns of every row. */
  function GetScatterplotData(components: seq<seq<real>>, values: seq<seq<real>>, di: int): (resp: ScatterplotData)
    requires |components| == NComponents && Rectangular(components, NComponents)
    requires Rectangular(values, NComponents)
    ensures |resp.topAttributes| == 4 && |resp.squaredSums| == 4 && Distinct(resp.topAttributes)
    ensures |resp.scatterData| == |values| && forall r :: 0 <= r < |values| ==> |resp.scatterData[r]| == 4
    ensures forall i :: 0 <= i < 4 ==>
              (exists j :: 0 <= j < NComponents && resp.topAttributes[i] == SelectedColumns[j] &&
                 resp.squaredSums[i] == ColumnSquaredSums(components, NComponents, di)[j] &&
                 (forall r :: 0 <= r < |values| ==> resp.scatterData[r][i] == values[r][j]))
    ensures forall i, j :: 0 <= i < j < 4 ==> resp.squaredSums[i] >= resp.squaredSums[j]
    ensures forall j, i :: 0 <= j < NComponents && SelectedColumns[j] !in resp.topAttributes && 0 <= i < 4 ==>
              ColumnSquaredSums(components, NComponents, di)[j] <= resp.squaredSums[i]
  {
    var sums := ColumnSquaredSums(components, NComponents, Min(di, NComponents));
    assert SliceEnd(|components|, Min(di, NComponents)) == SliceEnd(|components|, di);
    var top := TopIndices(sums, 4);
    SelectedColumnsDistinct();
    PickedNames(SelectedColumns, top);
    var rows := seq(|values|, r requires 0 <= r < |values| => Pick(values[r], top));
    assert ColumnSquaredSums(components, NComponents, di) == sums;
    var resp := ScatterplotData(Pick(SelectedColumns, top), Pick(sums, top), rows);
    forall i | 0 <= i < 4
      ensures exists j :: 0 <= j < NComponents && resp.topAttributes[i] == SelectedColumns[j] &&
                resp.squaredSums[i] == ColumnSquaredSums(components, NComponents, di)[j] &&
                (forall r :: 0 <= r < |values| ==> resp.scatterData[r][i] == values[r][j])
    {
      var j := top[i];
      assert resp.topAttributes[i] == SelectedColumns[j];
      assert resp.squaredSums[i] == sums[j];
      assert forall r :: 0 <= r < |values| ==> resp.scatterData[r][i] == values[r][j];
    }
    resp
  }
}

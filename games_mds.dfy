/** The MDS server variant (`server1.py`) of the third assignment: a fixed
    k = 4, a top-15 category filter on a copy, and MDS points over the
    unfiltered, cleaned frame. */
module GamesMds {
  import opened Sequences
  import opened Table
  import opened MdsFormat

  /** The cluster count, fixed at four. */
  const ClusterCount: int := 4

  const TopCategoryCount: nat := 15

  /** The same cleaning as the other server, with 15 categories per column;
      `df` is left whole and `df1` is the filtered copy. */
  method Preprocess(raw: seq<Row>, categorical: seq<string>)
    returns (df: seq<Row>, df1: seq<Row>, mappings: map<string, seq<string>>)
    ensures IsSubseq(df, raw)
    ensures forall r :: r in df <==> r in raw && !HasPlaceholder(r) && !HasMissing(r)
    ensures mappings.Keys == set c | c in categorical
    ensures Distinct(categorical) ==> df1 == StageBy(df, categorical, mappings, |categorical|)
    ensures Distinct(categorical) ==>
              forall j :: 0 <= j < |categorical| ==> ChosenAt(df, categorical, TopCategoryCount, mappings, j)
    ensures forall c :: c in mappings ==> |mappings[c]| <= TopCategoryCount && Distinct(mappings[c])
    ensures forall r, c :: r in df1 && c in mappings ==> IsIn(CellOf(r, c), mappings[c])
    ensures IsSubseq(df1, Stringified(df, categorical))
  {
    df := CleanRows(raw);
    df1, mappings := TopCategoryFilter(df, categorical, TopCategoryCount);
  }

  /** `/mds_data`: one point per row of the cleaned, unfiltered frame, labelled
      by the k = 4 clustering (`fitPredict`, one label per row) of that frame. */
  function MdsData(df: seq<Row>, fitPredict: int -> seq<int>, points: seq<(real, real)>): (out: seq<MdsPoint>)
    requires |fitPredict(ClusterCount)| == |df| <= |points|
    ensures |out| == |df|
    ensures forall i :: 0 <= i < |out| ==>
              out[i].x == points[i].0 && out[i].y == points[i].1 && out[i].cluster == fitPredict(ClusterCount)[i]
  {
    FormatMdsData(points, fitPredict(ClusterCount))
  }
}

/** The two MDS payloads both servers of the third assignment send: one point
    per row of the frame with its cluster, and one point per numerical column
    with the column's name. The MDS embeddings are library output and enter as
    lists of coordinate pairs. */
module MdsFormat {
  datatype MdsPoint = MdsPoint(x: real, y: real, cluster: int)
  datatype MdsVariable = MdsVariable(x: real, y: real, variable: string)

  /** `format_mds_data`: entry i is point i tagged with row i's cluster id.
      The comprehension runs over the rows of the frame, and the embedding
      must have at least that many points (fewer is an index error). */
  function FormatMdsData(points: seq<(real, real)>, clusterIds: seq<int>): (out: seq<MdsPoint>)
    requires |clusterIds| <= |points|
    ensures |out| == |clusterIds|
    ensures forall i :: 0 <= i < |out| ==>
              out[i].x == points[i].0 && out[i].y == points[i].1 && out[i].cluster == clusterIds[i]
  {
    seq(|clusterIds|, i requires 0 <= i < |clusterIds| => MdsPoint(points[i].0, points[i].1, clusterIds[i]))
  }

  /** `format_mds_variables`: entry i carries the name of numerical column i. */
  function FormatMdsVariables(points: seq<(real, real)>, columns: seq<string>): (out: seq<MdsVariable>)
    requires |columns| <= |points|
    ensures |out| == |columns|
    ensures forall i :: 0 <= i < |out| ==>
              out[i].x == points[i].0 && out[i].y == points[i].1 && out[i].variable == columns[i]
  {
    seq(|columns|, i requires 0 <= i < |columns| => MdsVariable(points[i].0, points[i].1, columns[i]))
  }

  /** Every cluster id that labels a row appears in the payload, and nothing else does. */
  lemma MdsDataClusters(points: seq<(real, real)>, clusterIds: seq<int>)
    requires |clusterIds| <= |points|
    ensures forall c :: (exists i :: 0 <= i < |clusterIds| && FormatMdsData(points, clusterIds)[i].cluster == c) <==> c in clusterIds
  {
    var out := FormatMdsData(points, clusterIds);
    forall c | c in clusterIds
      ensures exists i :: 0 <= i < |clusterIds| && out[i].cluster == c
    {
      var i :| 0 <= i < |clusterIds| && clusterIds[i] == c;
      assert out[i].cluster == c;
    }
  }
}

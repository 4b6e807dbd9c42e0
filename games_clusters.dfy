/** The k-means / MDS server of the third assignment: placeholder and
    missing-value filtering, the top-23 category filter, the optimal k found at
    load, and the `/set_k` and `/mse_plot` endpoints over the server's two
    globals (the current k and the cluster column). */
module GamesClusters {
  import opened Wrappers
  import opened Sequences
  import opened Table
  import opened Elbow
  import opened MdsFormat

  /** The number of categories each categorical column keeps. */
  const TopCategoryCount: nat := 23

  /** Load-time cleaning: rows with a `"tbd"` cell go, then rows with a missing
      cell, then the category filter runs on a copy. The original frame `df`
      stays as cleaned. */
  method Preprocess(raw: seq<Row>, categorical: seq<string>)
    returns (df: seq<Row>, df1: seq<Row>, mappings: map<string, seq<string>>)
    ensures IsSubseq(df, raw)
    ensures forall r :: r in df <==> r in raw && !HasPlaceholder(r) && !HasMissing(r)
    ensures mappings.Keys == set c | c in categorical
    ensures Distinct(categorical) ==> df1 == StageBy(df, categorical, mappings, |categorical|)
    ensures Distinct(categorical) ==>
              forall j :: 0 <= j < |categorical| ==> ChosenAt(df, categorical, TopCategoryCount, mappings, j)
    ensures forall c :: c in mappings ==> |mappings[c]| <= TopCategoryCount && Distinct(mappings[c])
    ensures forall r, c :: r in df1 && c in mappings ==> IsIn(CellOf(r, c), mappings[c])
    ensures IsSubseq(df1, Stringified(df, categorical))
  {
    df := CleanRows(raw);
    df1, mappings := TopCategoryFilter(df, categorical, TopCategoryCount);
  }

  /** The optimal-k search: its upper-bound parameter is accepted and never read,
      the range is always k = 1..10. */
  method FindOptimalK(inertia: int -> real, detect: seq<real> -> Option<int>, maxK: int) returns (k: int)
    ensures k == SelectK(CurveOf(inertia), detect(CurveOf(inertia)))
    ensures detect(CurveOf(inertia)).None? ==> 2 <= k <= 9
  {
    var mseScores := InertiaCurve(inertia);
    k := SelectK(mseScores, detect(mseScores));
  }

  /** The `k` member of the `/set_k` body, as JSON decodes it: absent, an
      integer, a boolean (a Python `bool` is an `int`) or anything else. */
  datatype KParam = Absent | IntK(n: int) | BoolK(b: bool) | OtherK

  /** A k is accepted when it is a Python integer (booleans are) of at least 1: `true` passes as 1, `false` fails as 0. */
  predicate ValidK(p: KParam)
    ensures ValidK(p) <==> (p.IntK? && p.n >= 1) || p == BoolK(true)
  {
    match p
    case IntK(n) => n >= 1
    case BoolK(b) => b
    case _ => false
  }

  /** The integer value of an accepted `k`. */
  function KValue(p: KParam): (k: int)
    requires ValidK(p)
    ensures k >= 1
    ensures p.BoolK? ==> k == 1
    ensures p.IntK? ==> k == p.n
  {
    if p.BoolK? then 1 else p.n
  }

  const InvalidK := "Invalid k value"
  const UpdatedK := "Updated k value"

  /** The `/set_k` reply: the 400 error, the message with the stored k echoed
      as it was sent (so `true` comes back as `true`), or the 500 the framework
      sends when the fit raises. */
  datatype SetKResponse =
    | Rejected(status: int, error: string)
    | Updated(message: string, newK: KParam)
    | Failed(status: int)

  /** k-means refuses more clusters than there are rows: the fit raises. */
  predicate FitFails(k: int, rows: nat)
  {
    k > rows
  }

  datatype MsePlotResponse = MsePlotResponse(kValues: seq<int>, mseScores: seq<real>, optimalK: int)

  /** The server's mutable state: the stored k and the cluster-label column. The
      clustering of the scaled table (`fitPredict`, one label per row for a
      k the fit accepts) and the row embedding are fixed at load. */
  class ClusterService {
    const fitPredict: int -> seq<int>
    const mdsPoints: seq<(real, real)>
    var optimalK: int
    var clusterIds: seq<int>

    ghost predicate Valid()
      reads this
    {
      |clusterIds| == |mdsPoints|
    }

    /** Start-up: the optimal k of the scaled table and its labels. The server
        only starts when that fit succeeds. */
    constructor (inertia: int -> real, detect: seq<real> -> Option<int>,
                 fitPredict: int -> seq<int>, mdsPoints: seq<(real, real)>)
      requires forall k :: 1 <= k <= |mdsPoints| ==> |fitPredict(k)| == |mdsPoints|
      requires 1 <= SelectK(CurveOf(inertia), detect(CurveOf(inertia))) <= |mdsPoints|
      ensures Valid()
      ensures this.fitPredict == fitPredict && this.mdsPoints == mdsPoints
      ensures optimalK == SelectK(CurveOf(inertia), detect(CurveOf(inertia)))
      ensures clusterIds == fitPredict(optimalK)
    {
      this.fitPredict := fitPredict;
      this.mdsPoints := mdsPoints;
      new;
      var k := FindOptimalK(inertia, detect, 10);
      optimalK := k;
      clusterIds := fitPredict(k);
    }

    /** `/set_k`: an invalid k is refused with 400 and changes nothing; a valid
        one is stored first and then fitted. When the fit succeeds every row
        is relabelled for it; when the fit raises (more clusters than rows)
        the reply is a 500, the new k stays stored and the labels keep the
        old fit. */
    method SetK(newK: KParam) returns (resp: SetKResponse)
      requires Valid() && forall k :: 1 <= k <= |mdsPoints| ==> |fitPredict(k)| == |mdsPoints|
      modifies this
      ensures Valid()
      ensures !ValidK(newK) ==> resp == Rejected(400, InvalidK) &&
                                optimalK == old(optimalK) && clusterIds == old(clusterIds)
      ensures ValidK(newK) && !FitFails(KValue(newK), |mdsPoints|) ==>
                resp == Updated(UpdatedK, newK) && optimalK == KValue(newK) && clusterIds == fitPredict(optimalK)
      ensures ValidK(newK) && FitFails(KValue(newK), |mdsPoints|) ==>
                resp == Failed(500) && optimalK == KValue(newK) && clusterIds == old(clusterIds)
    {
      if !ValidK(newK) {
        return Rejected(400, InvalidK);
      }
      optimalK := KValue(newK);
      if FitFails(optimalK, |mdsPoints|) {
        return Failed(500);
      }
      clusterIds := fitPredict(optimalK);
      resp := Updated(UpdatedK, newK);
    }

    /** `/mse_plot`: the inertia curve of the first two PCA components
        (`inertia2`) for k = 1..10, with the stored k, which only `/set_k` changes. */
    method MsePlot(inertia2: int -> real) returns (resp: MsePlotResponse)
      ensures resp.kValues == KRange()
      ensures |resp.mseScores| == 10 && forall i :: 0 <= i < 10 ==> resp.mseScores[i] == inertia2(i + 1)
      ensures resp.optimalK == optimalK
    {
      var mseScores := InertiaCurve(inertia2);
      resp := MsePlotResponse(KRange(), mseScores, optimalK);
    }

    /** `/mds_data`: one point per row, tagged with its current cluster. */
    method MdsData() returns (out: seq<MdsPoint>)
      requires Valid()
      ensures |out| == |mdsPoints|
      ensures forall i :: 0 <= i < |out| ==> out[i] == MdsPoint(mdsPoints[i].0, mdsPoints[i].1, clusterIds[i])
    {
      out := FormatMdsData(mdsPoints, clusterIds);
    }
  }

  /** After an accepted `/set_k` the MSE payload reports the k just set, even
      when its fit raised and the labels still belong to the old k. */
  method SetKThenMsePlot(s: ClusterService, newK: KParam, inertia2: int -> real)
    returns (resp: SetKResponse, plot: MsePlotResponse)
    requires s.Valid() && forall k :: 1 <= k <= |s.mdsPoints| ==> |s.fitPredict(k)| == |s.mdsPoints|
    modifies s
    ensures ValidK(newK) ==> plot.optimalK == KValue(newK)
    ensures !ValidK(newK) ==> plot.optimalK == old(s.optimalK)
    ensures ValidK(newK) && FitFails(KValue(newK), |s.mdsPoints|) ==>
              resp == Failed(500) && s.clusterIds == old(s.clusterIds)
  {
    resp := s.SetK(newK);
    plot := s.MsePlot(inertia2);
  }
}

/** The bar chart of the first assignment: one bar per distinct value of the
    chosen column, highest count first, with the y axis up to the largest count. */
module BarPlot {
  import opened Wrappers
  import opened Sequences
  import opened Frequency

  /** A row's field for the plotted column: `None` where the row has no such field (`undefined`,
      which the rollup groups like any other key). */
  function ColumnValues<V>(data: seq<map<string, V>>, column: string): (vs: seq<Option<V>>)
    ensures |vs| == |data|
    ensures forall i :: 0 <= i < |data| ==> vs[i] == if column in data[i] then Some(data[i][column]) else None
  {
    seq(|data|, i requires 0 <= i < |data| => if column in data[i] then Some(data[i][column]) else None)
  }

  datatype BarChart<V> = BarChart(bars: seq<(Option<V>, nat)>, xDomain: seq<Option<V>>, yMax: nat)

  /** The effect body: nothing when there are no rows or no column; otherwise
      the rollup sorted by count, the band scale's domain in bar order and the
      linear scale's top. */
  function BarPlotData<V(!new,==)>(data: seq<map<string, V>>, column: string): (chart: Option<BarChart<V>>)
    ensures chart.None? <==> |data| == 0 || column == ""
    ensures chart.Some? ==> chart.value.bars == ValueCounts(ColumnValues(data, column))
    ensures chart.Some? ==> chart.value.xDomain == Values(chart.value.bars)
    ensures chart.Some? ==> (forall i :: 0 <= i < |chart.value.bars| ==> chart.value.bars[i].1 <= chart.value.yMax) &&
                            (exists i :: 0 <= i < |chart.value.bars| && chart.value.bars[i].1 == chart.value.yMax)
  {
    if |data| == 0 || column == "" then None
    else
      var vs := ColumnValues(data, column);
      var bars := ValueCounts(vs);
      ValueCountsSpec(vs);
      assert vs[0] in Values(bars);
      Some(BarChart(bars, Values(bars), bars[0].1))
  }

  /** The bars: each distinct value once, with the number of rows holding it,
      the counts adding up to the number of rows, highest first, and the
      y-axis top at the first bar's count. */
  lemma BarPlotSpec<V(!new)>(data: seq<map<string, V>>, column: string)
    requires |data| > 0 && column != ""
    ensures var chart := BarPlotData(data, column).value;
      var vs := ColumnValues(data, column);
      (forall i :: 0 <= i < |chart.bars| ==> chart.bars[i].1 == multiset(vs)[chart.bars[i].0]) &&
      (forall v :: v in vs <==> v in chart.xDomain) &&
      Distinct(chart.xDomain) &&
      TotalCount(chart.bars) == |data| &&
      (forall i, j :: 0 <= i < j < |chart.bars| ==> chart.bars[i].1 >= chart.bars[j].1) &&
      chart.yMax == chart.bars[0].1
  {
    var vs := ColumnValues(data, column);
    ValueCountsSpec(vs);
    assert vs[0] in Values(ValueCounts(vs));
  }
}

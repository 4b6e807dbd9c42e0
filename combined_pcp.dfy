/** The combined numerical-and-categorical parallel-coordinates plot: its axis
    list, the range of each numerical axis and the same categorical repair. */
module CombinedPcp {
  import opened Wrappers
  import opened CategoricalPcp

  /** The numerical columns, then the first seven categorical ones. */
  function AllColumns(numerical: seq<string>, cats: Categories): (axes: seq<string>)
    ensures |axes| == |numerical| + Min(7, |cats.keys|)
    ensures axes[..|numerical|] == numerical
    ensures axes[|numerical|..] == DisplayedColumns(cats)
  {
    numerical + DisplayedColumns(cats)
  }

  /** The numeric reading of a value: unary plus, with NaN and zero read as 0. `parse` is
      JavaScript's string-to-number conversion (`None` for NaN). */
  function NumericOrZero(v: Option<JsValue>, parse: string -> Option<real>): (x: real)
    ensures v.Some? && v.value.JsNumber? ==> x == v.value.n
    ensures v.Some? && v.value.JsBool? ==> x == if v.value.b then 1.0 else 0.0
    ensures v.None? || v == Some(JsNull) ==> x == 0.0
    ensures v.Some? && v.value.JsString? ==> x == (if parse(v.value.s).Some? then parse(v.value.s).value else 0.0)
  {
    match v
    case None => 0.0
    case Some(JsNull) => 0.0
    case Some(JsBool(b)) => if b then 1.0 else 0.0
    case Some(JsNumber(n)) => n
    case Some(JsString(s)) => if parse(s).Some? then parse(s).value else 0.0
  }

  /** `d3.extent`: the least and greatest of a non-empty list. */
  function Extent(xs: seq<real>): (e: (real, real))
    requires |xs| > 0
    ensures e.0 <= e.1
    ensures forall i :: 0 <= i < |xs| ==> e.0 <= xs[i] <= e.1
    ensures e.0 in xs && e.1 in xs
  {
    if |xs| == 1 then (xs[0], xs[0])
    else
      var e := Extent(xs[..|xs| - 1]);
      var x := xs[|xs| - 1];
      assert xs == xs[..|xs| - 1] + [x];
      (if x < e.0 then x else e.0, if x > e.1 then x else e.1)
  }

  /** The domain of a numerical axis over the rows (the plot draws nothing
      without rows). Every row's number, zero for a row without one, lies
      inside it, and both ends are some row's number. */
  function NumericDomain(data: seq<JsRow>, col: string, parse: string -> Option<real>): (e: (real, real))
    requires |data| > 0
    ensures forall i :: 0 <= i < |data| ==> e.0 <= NumericOrZero(Lookup(data[i], col), parse) <= e.1
    ensures exists i :: 0 <= i < |data| && e.0 == NumericOrZero(Lookup(data[i], col), parse)
    ensures exists i :: 0 <= i < |data| && e.1 == NumericOrZero(Lookup(data[i], col), parse)
  {
    var xs := seq(|data|, i requires 0 <= i < |data| => NumericOrZero(Lookup(data[i], col), parse));
    var e := Extent(xs);
    assert forall i :: 0 <= i < |data| ==> xs[i] == NumericOrZero(Lookup(data[i], col), parse);
    var lo :| 0 <= lo < |xs| && xs[lo] == e.0;
    var hi :| 0 <= hi < |xs| && xs[hi] == e.1;
    e
  }

  /** A row with no value, or a non-numeric one, sits at zero on a numerical axis. */
  lemma MissingIsZero(r: JsRow, col: string, parse: string -> Option<real>)
    requires col !in r || r[col] == JsNull || (r[col].JsString? && parse(r[col].s).None?)
    ensures NumericOrZero(Lookup(r, col), parse) == 0.0
  {
  }

  /** The combined plot's repair leaves every numerical field as it was,
      provided no numerical column is also a categorical key. */
  lemma NumericalUntouched(data: seq<JsRow>, processed: seq<JsRow>, numerical: seq<string>, cats: Categories)
    requires |processed| == |data|
    requires forall i, k :: 0 <= i < |data| && k !in DisplayedColumns(cats) ==> Lookup(processed[i], k) == Lookup(data[i], k)
    requires forall c :: c in numerical ==> c !in cats.keys
    ensures forall i, c :: 0 <= i < |data| && c in numerical ==> Lookup(processed[i], c) == Lookup(data[i], c)
  {
    forall i, c | 0 <= i < |data| && c in numerical
      ensures Lookup(processed[i], c) == Lookup(data[i], c)
    {
      assert c !in DisplayedColumns(cats);
    }
  }
}

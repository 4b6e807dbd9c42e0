/** The default-value repair both parallel-coordinates plots of the third
    assignment run before drawing: for each displayed categorical column, a
    value that is falsy or not on the column's axis becomes the axis's first
    category. Rows are JavaScript objects over JSON values; a key that is
    absent reads as `undefined`. */
module CategoricalPcp {
  import opened Wrappers
  import opened Sequences

  datatype JsValue = JsString(s: string) | JsNumber(n: real) | JsBool(b: bool) | JsNull

  type JsRow = map<string, JsValue>

  /** A row's field for a column; `None` stands for an absent field. */
  function Lookup(r: JsRow, col: string): Option<JsValue>
  {
    if col in r then Some(r[col]) else None
  }

  /** JavaScript falsiness of a decoded JSON value (JSON carries no NaN). */
  predicate Falsy(v: Option<JsValue>)
  {
    match v
    case None => true
    case Some(JsNull) => true
    case Some(JsBool(b)) => !b
    case Some(JsNumber(n)) => n == 0.0
    case Some(JsString(s)) => s == ""
  }

  /** The `categorical_columns` object: its keys in order, and each key's
      list; a key whose value is not a list reads as `[]` (`|| []`). */
  datatype Categories = Categories(keys: seq<string>, lists: map<string, seq<JsValue>>)

  /** Object keys never repeat. */
  predicate WellFormed(cats: Categories)
  {
    Distinct(cats.keys)
  }

  /** The categories of a column's point scale. */
  function DomainOf(cats: Categories, col: string): seq<JsValue>
  {
    if col in cats.lists then cats.lists[col] else []
  }

  /** The first seven keys of the category object, in key order. */
  function DisplayedColumns(cats: Categories): (cols: seq<string>)
    ensures |cols| == Min(7, |cats.keys|)
    ensures cols == cats.keys[..|cols|]
    ensures WellFormed(cats) ==> Distinct(cols)
  {
    cats.keys[..Min(7, |cats.keys|)]
  }

  /** A value is replaced when it is falsy or not one of its axis's categories. */
  predicate NeedsDefault(v: Option<JsValue>, domain: seq<JsValue>)
  {
    Falsy(v) || v.value !in domain
  }

  /** The value a column holds after the repair. */
  function Repaired(v: Option<JsValue>, domain: seq<JsValue>): (w: Option<JsValue>)
    ensures |domain| > 0 ==> w.Some? && w.value in domain
    ensures |domain| > 0 && NeedsDefault(v, domain) ==> w == Some(domain[0])
    ensures !NeedsDefault(v, domain) ==> w == v
    ensures |domain| == 0 ==> w == v
  {
    if NeedsDefault(v, domain) && |domain| > 0 then Some(domain[0]) else v
  }

  /** Repairing twice changes nothing more, unless the first category is
      itself falsy (an empty string), which the repair keeps writing. */
  lemma RepairedIdempotent(v: Option<JsValue>, domain: seq<JsValue>)
    requires |domain| > 0 ==> !Falsy(Some(domain[0]))
    ensures Repaired(Repaired(v, domain), domain) == Repaired(v, domain)
  {
  }

  /** The `forEach` over the displayed columns, assigning on the row copy. */
  method RepairRow(d: JsRow, cols: seq<string>, cats: Categories) returns (item: JsRow)
    requires Distinct(cols)
    ensures forall c :: c in cols ==> Lookup(item, c) == Repaired(Lookup(d, c), DomainOf(cats, c))
    ensures forall k :: k !in cols ==> Lookup(item, k) == Lookup(d, k)
  {
    item := d;
    for i := 0 to |cols|
      invariant forall j :: 0 <= j < i ==> Lookup(item, cols[j]) == Repaired(Lookup(d, cols[j]), DomainOf(cats, cols[j]))
      invariant forall k :: k !in cols[..i] ==> Lookup(item, k) == Lookup(d, k)
    {
      var col := cols[i];
      var domain := DomainOf(cats, col);
      assert col !in cols[..i];
      if NeedsDefault(Lookup(item, col), domain) {
        if |domain| > 0 {
          item := item[col := domain[0]];
        }
      }
      assert cols[..i + 1] == cols[..i] + [col];
    }
    assert cols[..|cols|] == cols;
  }

  /** `processedData`: the same rows in the same order, each with its displayed
      categorical columns repaired and every other field as it was. */
  method ProcessData(data: seq<JsRow>, cats: Categories) returns (processed: seq<JsRow>)
    requires WellFormed(cats)
    ensures |processed| == |data|
    ensures forall i, c :: 0 <= i < |data| && c in DisplayedColumns(cats) ==>
              Lookup(processed[i], c) == Repaired(Lookup(data[i], c), DomainOf(cats, c))
    ensures forall i, k :: 0 <= i < |data| && k !in DisplayedColumns(cats) ==>
              Lookup(processed[i], k) == Lookup(data[i], k)
  {
    var cols := DisplayedColumns(cats);
    processed := [];
    for i := 0 to |data|
      invariant |processed| == i
      invariant forall j, c :: 0 <= j < i && c in cols ==>
                  Lookup(processed[j], c) == Repaired(Lookup(data[j], c), DomainOf(cats, c))
      invariant forall j, k :: 0 <= j < i && k !in cols ==> Lookup(processed[j], k) == Lookup(data[j], k)
    {
      var item := RepairRow(data[i], cols, cats);
      processed := processed + [item];
    }
  }

  /** After the repair every displayed column with a non-empty category list
      holds one of its categories, in every row. */
  lemma ProcessedOnAxis(data: seq<JsRow>, processed: seq<JsRow>, cats: Categories)
    requires |processed| == |data|
    requires forall i, c :: 0 <= i < |data| && c in DisplayedColumns(cats) ==>
               Lookup(processed[i], c) == Repaired(Lookup(data[i], c), DomainOf(cats, c))
    ensures forall i, c :: 0 <= i < |processed| && c in DisplayedColumns(cats) && |DomainOf(cats, c)| > 0 ==>
              c in processed[i] && processed[i][c] in DomainOf(cats, c)
  {
    forall i, c | 0 <= i < |processed| && c in DisplayedColumns(cats) && |DomainOf(cats, c)| > 0
      ensures c in processed[i] && processed[i][c] in DomainOf(cats, c)
    {
      assert Lookup(processed[i], c) == Repaired(Lookup(data[i], c), DomainOf(cats, c));
    }
  }
}

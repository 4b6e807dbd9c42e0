/** The games table as the three servers see it after `pd.read_csv`: rows of
    named cells, the placeholder and missing-value filters, and the loop that
    keeps only the most frequent categories of each categorical column. */
module Table {
  import opened Wrappers
  import opened Sequences
  import opened Frequency

  /** A cell: text, a number (with the text `str()` gives for it), or NaN/None. */
  datatype Cell = Text(text: string) | Num(value: real, repr: string) | Missing

  /** A row maps column names to cells. */
  type Row = map<string, Cell>

  /** The value Metacritic-style data uses for a score not yet determined. */
  const Placeholder: string := "tbd"

  function CellOf(r: Row, col: string): Cell
  {
    if col in r then r[col] else Missing
  }

  /** Some cell of the row holds the placeholder text. */
  predicate HasPlaceholder(r: Row)
    ensures HasPlaceholder(r) <==> exists c :: c in r && r[c] == Text(Placeholder)
  {
    Text(Placeholder) in r.Values
  }

  /** Some cell of the row is missing. */
  predicate HasMissing(r: Row)
  {
    Missing in r.Values
  }

  /** The rows with no placeholder cell, in order. */
  function DropPlaceholderRows(rows: seq<Row>): (kept: seq<Row>)
    ensures IsSubseq(kept, rows)
    ensures forall r :: r in kept <==> r in rows && !HasPlaceholder(r)
    ensures forall r :: multiset(kept)[r] == if HasPlaceholder(r) then 0 else multiset(rows)[r]
  {
    Filter(rows, r => !HasPlaceholder(r))
  }

  /** The rows with no missing cell, in order. */
  function DropMissingRows(rows: seq<Row>): (kept: seq<Row>)
    ensures IsSubseq(kept, rows)
    ensures forall r :: r in kept <==> r in rows && !HasMissing(r)
    ensures forall r :: multiset(kept)[r] == if HasMissing(r) then 0 else multiset(rows)[r]
  {
    Filter(rows, r => !HasMissing(r))
  }

  /** Both filters in the order the servers apply them. */
  function CleanRows(rows: seq<Row>): (kept: seq<Row>)
    ensures IsSubseq(kept, rows)
    ensures forall r :: r in kept <==> r in rows && !HasPlaceholder(r) && !HasMissing(r)
  {
    var noPlaceholder := DropPlaceholderRows(rows);
    SubseqTrans(DropMissingRows(noPlaceholder), noPlaceholder, rows);
    DropMissingRows(noPlaceholder)
  }

  /** `str()` of a cell, as `astype(str)` applies it. */
  function AsText(c: Cell): (t: string)
    ensures c.Text? ==> t == c.text
  {
    match c
    case Text(s) => s
    case Num(_, repr) => repr
    case Missing => "nan"
  }

  /** One row with the column `col` converted to text. */
  function StringifyCell(r: Row, col: string): Row
  {
    r[col := Text(AsText(CellOf(r, col)))]
  }

  /** The table with the column `col` converted to text in every row. */
  function StringifyColumn(rows: seq<Row>, col: string): (out: seq<Row>)
    ensures |out| == |rows|
    ensures forall i :: 0 <= i < |rows| ==> out[i] == StringifyCell(rows[i], col)
  {
    seq(|rows|, i requires 0 <= i < |rows| => StringifyCell(rows[i], col))
  }

  /** A row with each of `cols` converted to text, first to last. */
  function StringifyCells(r: Row, cols: seq<string>): Row
  {
    if cols == [] then r else StringifyCell(StringifyCells(r, cols[..|cols| - 1]), cols[|cols| - 1])
  }

  /** The whole table with each of `cols` converted to text. */
  function Stringified(rows: seq<Row>, cols: seq<string>): (out: seq<Row>)
    ensures |out| == |rows|
  {
    seq(|rows|, i requires 0 <= i < |rows| => StringifyCells(rows[i], cols))
  }

  lemma StringifiedStep(rows: seq<Row>, cols: seq<string>, i: nat)
    requires i < |cols|
    ensures Stringified(rows, cols[..i + 1]) == StringifyColumn(Stringified(rows, cols[..i]), cols[i])
  {
    assert cols[..i + 1][..i] == cols[..i];
  }

  lemma {:induction false} SubseqStringify(a: seq<Row>, b: seq<Row>, col: string)
    requires IsSubseq(a, b)
    ensures IsSubseq(StringifyColumn(a, col), StringifyColumn(b, col))
    decreases |b|
  {
    if a != [] {
      assert StringifyColumn(b, col)[1..] == StringifyColumn(b[1..], col);
      assert StringifyColumn(a, col)[1..] == StringifyColumn(a[1..], col);
      if a[0] == b[0] && IsSubseq(a[1..], b[1..]) {
        SubseqStringify(a[1..], b[1..], col);
      } else {
        SubseqStringify(a, b[1..], col);
      }
    }
  }

  /** The column's cells as the text the counts are taken over. */
  function ColumnText(rows: seq<Row>, col: string): (vals: seq<string>)
    ensures |vals| == |rows|
    ensures forall i :: 0 <= i < |rows| ==> vals[i] == AsText(CellOf(rows[i], col))
  {
    seq(|rows|, i requires 0 <= i < |rows| => AsText(CellOf(rows[i], col)))
  }

  /** A cell is one of the listed texts. */
  predicate IsIn(c: Cell, top: seq<string>)
  {
    c.Text? && c.text in top
  }

  /** The rows whose `col` cell is on `top`, in order. */
  function KeepIn(rows: seq<Row>, col: string, top: seq<string>): (kept: seq<Row>)
    ensures |kept| <= |rows|
  {
    if rows == [] then []
    else
      var rest := KeepIn(rows[1..], col, top);
      if IsIn(CellOf(rows[0], col), top) then [rows[0]] + rest else rest
  }

  /** The kept rows are a subsequence of the input, and a row is kept exactly
      when it is an input row whose `col` cell is on `top`. */
  lemma {:induction false} KeepInFacts(rows: seq<Row>, col: string, top: seq<string>)
    ensures IsSubseq(KeepIn(rows, col, top), rows)
    ensures forall r :: r in KeepIn(rows, col, top) <==> r in rows && IsIn(CellOf(r, col), top)
  {
    if rows != [] {
      KeepInFacts(rows[1..], col, top);
      var rest := KeepIn(rows[1..], col, top);
      assert rows == [rows[0]] + rows[1..];
      if IsIn(CellOf(rows[0], col), top) {
        assert ([rows[0]] + rest)[1..] == rest;
      }
    }
  }

  /** One pass of the loop keeps every stored list satisfied: the new column by
      the filter itself, the earlier ones because the pass changes no other column. */
  lemma StepKeepsMembership(df1: seq<Row>, mappings: map<string, seq<string>>, col: string, top: seq<string>)
    requires forall r, c :: r in df1 && c in mappings ==> IsIn(CellOf(r, c), mappings[c])
    ensures forall r, c :: r in KeepIn(StringifyColumn(df1, col), col, top) && c in mappings[col := top] ==>
              IsIn(CellOf(r, c), mappings[col := top][c])
  {
    var text := StringifyColumn(df1, col);
    KeepInFacts(text, col, top);
    forall r, c | r in KeepIn(text, col, top) && c in mappings[col := top]
      ensures IsIn(CellOf(r, c), mappings[col := top][c])
    {
      if c != col {
        var k :| 0 <= k < |text| && text[k] == r;
        assert CellOf(r, c) == CellOf(df1[k], c);
        assert df1[k] in df1;
      }
    }
  }

  /** One pass of the loop keeps the table a subsequence of the converted original. */
  lemma StepKeepsSubseq(df: seq<Row>, categorical: seq<string>, i: nat, df1: seq<Row>, top: seq<string>)
    requires i < |categorical|
    requires IsSubseq(df1, Stringified(df, categorical[..i]))
    ensures IsSubseq(KeepIn(StringifyColumn(df1, categorical[i]), categorical[i], top), Stringified(df, categorical[..i + 1]))
  {
    var col := categorical[i];
    var text := StringifyColumn(df1, col);
    KeepInFacts(text, col, top);
    SubseqStringify(df1, Stringified(df, categorical[..i]), col);
    StringifiedStep(df, categorical, i);
    SubseqTrans(KeepIn(text, col, top), text, Stringified(df, categorical[..i + 1]));
  }

  /** The list stored for `col`, or none when no pass has stored one. */
  function ListFor(lists: map<string, seq<string>>, col: string): seq<string>
  {
    if col in lists then lists[col] else []
  }

  /** The table after the first `i` passes of the category loop, given the
      list each pass kept (`lists[c]` for column `c`): each pass converts its
      column to text and keeps the rows whose text is on the list. */
  function StageBy(df: seq<Row>, categorical: seq<string>, lists: map<string, seq<string>>, i: nat): seq<Row>
    requires i <= |categorical|
  {
    if i == 0 then df
    else
      var col := categorical[i - 1];
      KeepIn(StringifyColumn(StageBy(df, categorical, lists, i - 1), col), col, ListFor(lists, col))
  }

  /** Two list maps that agree on the first `i` columns give the same stages. */
  lemma {:induction false} StageByFrame(df: seq<Row>, categorical: seq<string>, a: map<string, seq<string>>,
                                        b: map<string, seq<string>>, i: nat)
    requires i <= |categorical|
    requires forall k :: 0 <= k < i ==> ListFor(a, categorical[k]) == ListFor(b, categorical[k])
    ensures StageBy(df, categorical, a, i) == StageBy(df, categorical, b, i)
  {
    if i > 0 {
      StageByFrame(df, categorical, a, b, i - 1);
    }
  }

  /** Pass `j` stored the `n` most frequent texts of its column in the table
      as that pass found it. */
  ghost predicate ChosenAt(df: seq<Row>, categorical: seq<string>, n: nat, lists: map<string, seq<string>>, j: nat)
    requires j < |categorical|
  {
    var text := StringifyColumn(StageBy(df, categorical, lists, j), categorical[j]);
    categorical[j] in lists && lists[categorical[j]] == TopValues(ColumnText(text, categorical[j]), n)
  }

  /** A later pass does not disturb an earlier choice: the list stored for
      another column and the stage that choice was made on are unchanged. */
  lemma ChosenKept(df: seq<Row>, categorical: seq<string>, n: nat, j: nat, i: nat,
                   mappings: map<string, seq<string>>, top: seq<string>)
    requires j < i < |categorical|
    requires forall k :: 0 <= k < i ==> categorical[k] != categorical[i]
    requires ChosenAt(df, categorical, n, mappings, j)
    ensures ChosenAt(df, categorical, n, mappings[categorical[i] := top], j)
  {
    StageByFrame(df, categorical, mappings, mappings[categorical[i] := top], j);
  }

  /** The list a pass stores is that pass's choice, and the table it leaves is
      the next stage. */
  lemma ChosenNext(df: seq<Row>, categorical: seq<string>, n: nat, i: nat,
                   df1: seq<Row>, m: map<string, seq<string>>)
    requires i < |categorical|
    requires df1 == StageBy(df, categorical, m, i)
    requires categorical[i] in m
    requires m[categorical[i]] == TopValues(ColumnText(StringifyColumn(df1, categorical[i]), categorical[i]), n)
    ensures ChosenAt(df, categorical, n, m, i)
    ensures KeepIn(StringifyColumn(df1, categorical[i]), categorical[i], m[categorical[i]]) == StageBy(df, categorical, m, i + 1)
  {
  }

  /** Storing a list for a column no earlier pass used keeps every earlier
      choice; with the new pass's own choice, the first `i + 1` passes hold. */
  lemma ChosenAllKept(df: seq<Row>, categorical: seq<string>, n: nat, i: nat,
                      mappings: map<string, seq<string>>, m: map<string, seq<string>>)
    requires i < |categorical| && categorical[i] in m
    requires m == mappings[categorical[i] := m[categorical[i]]]
    requires forall k :: 0 <= k < i ==> categorical[k] != categorical[i]
    requires forall j :: 0 <= j < i ==> ChosenAt(df, categorical, n, mappings, j)
    requires ChosenAt(df, categorical, n, m, i)
    ensures forall j :: 0 <= j <= i ==> ChosenAt(df, categorical, n, m, j)
  {
    forall j | 0 <= j <= i
      ensures ChosenAt(df, categorical, n, m, j)
    {
      if j < i {
        ChosenKept(df, categorical, n, j, i, mappings, m[categorical[i]]);
      }
    }
  }

  /** One pass extends both facts: the table is the next stage, and the new
      list is that pass's choice, while earlier choices are unaffected because
      the new column is not an earlier one. */
  lemma ChosenStep(df: seq<Row>, categorical: seq<string>, n: nat, i: nat,
                   df1: seq<Row>, mappings: map<string, seq<string>>, top: seq<string>, m: map<string, seq<string>>)
    requires i < |categorical| && Distinct(categorical)
    requires df1 == StageBy(df, categorical, mappings, i)
    requires forall j :: 0 <= j < i ==> ChosenAt(df, categorical, n, mappings, j)
    requires top == TopValues(ColumnText(StringifyColumn(df1, categorical[i]), categorical[i]), n)
    requires m == mappings[categorical[i] := top]
    ensures KeepIn(StringifyColumn(df1, categorical[i]), categorical[i], top) == StageBy(df, categorical, m, i + 1)
    ensures forall j :: 0 <= j <= i ==> ChosenAt(df, categorical, n, m, j)
  {
    assert forall k :: 0 <= k < i ==> categorical[k] != categorical[i];
    StageByFrame(df, categorical, mappings, m, i);
    ChosenNext(df, categorical, n, i, df1, m);
    ChosenAllKept(df, categorical, n, i, mappings, m);
  }

  /** The names of the first `i` categorical columns. */
  function FirstNames(categorical: seq<string>, i: nat): (names: set<string>)
    requires i <= |categorical|
    ensures forall c :: c in names <==> exists j :: 0 <= j < i && categorical[j] == c
  {
    if i == 0 then {} else FirstNames(categorical, i - 1) + {categorical[i - 1]}
  }

  /** What holds after the first `i` passes: the lists are stored under the
      first `i` column names; with distinct names, the table is stage `i` and
      each stored list is its own pass's choice; each list has at most `n`
      distinct texts; every row's stored columns are on their lists; and the
      table is a subsequence of the original with those columns converted. */
  ghost predicate Filtered(df: seq<Row>, categorical: seq<string>, n: nat, i: nat,
                           df1: seq<Row>, mappings: map<string, seq<string>>)
    requires i <= |categorical|
  {
    && mappings.Keys == FirstNames(categorical, i)
    && (Distinct(categorical) ==> df1 == StageBy(df, categorical, mappings, i))
    && (Distinct(categorical) ==> forall j :: 0 <= j < i ==> ChosenAt(df, categorical, n, mappings, j))
    && (forall c :: c in mappings ==> |mappings[c]| <= n && Distinct(mappings[c]))
    && (forall r, c :: r in df1 && c in mappings ==> IsIn(CellOf(r, c), mappings[c]))
    && IsSubseq(df1, Stringified(df, categorical[..i]))
  }

  /** One pass of the category loop keeps `Filtered`. */
  lemma FilterStep(df: seq<Row>, categorical: seq<string>, n: nat, i: nat,
                   df1: seq<Row>, mappings: map<string, seq<string>>, df2: seq<Row>, m: map<string, seq<string>>)
    requires i < |categorical|
    requires Filtered(df, categorical, n, i, df1, mappings)
    requires var col := categorical[i];
      var text := StringifyColumn(df1, col);
      var top := TopValues(ColumnText(text, col), n);
      df2 == KeepIn(text, col, top) && m == mappings[col := top]
    ensures Filtered(df, categorical, n, i + 1, df2, m)
  {
    var col := categorical[i];
    var text := StringifyColumn(df1, col);
    var top := TopValues(ColumnText(text, col), n);
    TopValuesFacts(ColumnText(text, col), n);
    StepKeepsMembership(df1, mappings, col, top);
    StepKeepsSubseq(df, categorical, i, df1, top);
    if Distinct(categorical) {
      ChosenStep(df, categorical, n, i, df1, mappings, top, m);
    }
    assert m.Keys == mappings.Keys + {col};
    assert m.Keys == FirstNames(categorical, i + 1);
    assert (Distinct(categorical) ==> df2 == StageBy(df, categorical, m, i + 1));
    assert (Distinct(categorical) ==> forall j :: 0 <= j < i + 1 ==> ChosenAt(df, categorical, n, m, j));
    assert (forall c :: c in m ==> |m[c]| <= n && Distinct(m[c]));
    assert (forall r, c :: r in df2 && c in m ==> IsIn(CellOf(r, c), m[c]));
    assert IsSubseq(df2, Stringified(df, categorical[..i + 1]));
  }

  /** Before the first pass, `Filtered` holds of the untouched table. */
  lemma FilteredStart(df: seq<Row>, categorical: seq<string>, n: nat)
    ensures Filtered(df, categorical, n, 0, df, map[])
  {
    assert Stringified(df, categorical[..0]) == df;
    SubseqRefl(df);
  }

  /** After the last pass, `Filtered` gives the loop's results. */
  lemma FilteredDone(df: seq<Row>, categorical: seq<string>, n: nat,
                     df1: seq<Row>, mappings: map<string, seq<string>>)
    requires Filtered(df, categorical, n, |categorical|, df1, mappings)
    ensures mappings.Keys == set c | c in categorical
    ensures Distinct(categorical) ==> df1 == StageBy(df, categorical, mappings, |categorical|)
    ensures Distinct(categorical) ==> forall j :: 0 <= j < |categorical| ==> ChosenAt(df, categorical, n, mappings, j)
    ensures forall c :: c in mappings ==> |mappings[c]| <= n && Distinct(mappings[c])
    ensures forall r, c :: r in df1 && c in mappings ==> IsIn(CellOf(r, c), mappings[c])
    ensures IsSubseq(df1, Stringified(df, categorical))
  {
    assert categorical[..|categorical|] == categorical;
    forall c | c in categorical
      ensures c in mappings.Keys
    {
      var j :| 0 <= j < |categorical| && categorical[j] == c;
    }
  }

  /** The category loop, on a copy of `df`: one pass per categorical column,
      in order, each storing its list under the column's name. Column names
      of a frame are distinct, and then each stored list is the one its own
      pass computed. */
  method TopCategoryFilter(df: seq<Row>, categorical: seq<string>, n: nat)
    returns (df1: seq<Row>, mappings: map<string, seq<string>>)
    ensures mappings.Keys == set c | c in categorical
    ensures Distinct(categorical) ==> df1 == StageBy(df, categorical, mappings, |categorical|)
    ensures Distinct(categorical) ==> forall j :: 0 <= j < |categorical| ==> ChosenAt(df, categorical, n, mappings, j)
    ensures forall c :: c in mappings ==> |mappings[c]| <= n && Distinct(mappings[c])
    ensures forall r, c :: r in df1 && c in mappings ==> IsIn(CellOf(r, c), mappings[c])
    ensures IsSubseq(df1, Stringified(df, categorical))
  {
    df1 := df;
    mappings := map[];
    FilteredStart(df, categorical, n);
    for i := 0 to |categorical|
      invariant Filtered(df, categorical, n, i, df1, mappings)
    {
      var col := categorical[i];
      var text := StringifyColumn(df1, col);
      var top := TopValues(ColumnText(text, col), n);
      FilterStep(df, categorical, n, i, df1, mappings, KeepIn(text, col, top), mappings[col := top]);
      df1 := KeepIn(text, col, top);
      mappings := mappings[col := top];
    }
    FilteredDone(df, categorical, n, df1, mappings);
  }
}

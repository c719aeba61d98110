/** Reconstruction of the `plate` list of lists from the worksheet table of one export
    file (plate_analyzer.py:66-79).

    The worksheet is given as already-parsed elements: a sequence of rows, each carrying
    its `Index` attribute (absent or text) and its column elements, each column carrying
    its own `Index` attribute and the texts of its value elements (`None` for an element
    without text). The program first makes one empty list per column element of the
    whole table, then appends every value text to `plate[int(row Index) - 1]`. The column
    `Index` is converted to an integer but never used, so a value's position inside its
    plate row is its document order. */
module PlateGrid {
  import opened Outcome
  import opened PyText

  type CellText = Option<string>

  datatype Column = Column(index: Option<string>, cells: seq<CellText>)

  datatype Row = Row(index: Option<string>, columns: seq<Column>)

  type Table = seq<Row>

  type Plate = seq<seq<CellText>>

  // ---------------------------------------------------------------- where a value goes

  /** `int(element.attrib["...Index"])`: KeyError without the attribute, ValueError on
      text that is not an integer. */
  function IndexAttribute(index: Option<string>): Result<int>
  {
    match index
    case None => Err(MissingAttribute)
    case Some(s) => ParseInt(s)
  }

  /** Python list indexing `xs[k]` on a list of length `n`: negative `k` counts from the end. */
  function PyIndex(k: int, n: nat): (r: Result<nat>)
    ensures r.Ok? <==> -(n as int) <= k < n
    ensures r.Ok? ==> r.value < n && (r.value == k || r.value == k + n)
  {
    if 0 <= k < n then Ok(k) else if -(n as int) <= k < 0 then Ok(k + n) else Err(IndexOutOfRange)
  }

  /** The plate row that receives the values of column `col` of row `row` when the plate has
      `n` lists: both `Index` attributes are converted, in that order, and the row's
      decides the list. */
  function CellTarget(n: nat, row: Row, col: Column): (r: Result<nat>)
    ensures r.Ok? ==> r.value < n
  {
    match IndexAttribute(row.index)
    case Err(e) => Err(e)
    case Ok(rowIndex) =>
      match IndexAttribute(col.index)
      case Err(e) => Err(e)
      case Ok(_) => PyIndex(rowIndex - 1, n)
  }

  /** With both attributes readable, a row `Index` of `v` lands in list `v - 1`, counts
      from the end when `v - 1` is negative, and is an IndexError when `v - 1` falls
      outside `[-n, n)`; the column `Index` plays no part. */
  lemma CellTargetByRowIndex(n: nat, row: Row, col: Column, col': Column)
    requires IndexAttribute(row.index).Ok?
    requires IndexAttribute(col.index).Ok? && IndexAttribute(col'.index).Ok?
    ensures var v := IndexAttribute(row.index).value;
      && (1 <= v <= n ==> CellTarget(n, row, col) == Ok(v - 1))
      && (-(n as int) < v <= 0 ==> CellTarget(n, row, col) == Ok(v - 1 + n))
      && (v > n || v <= -(n as int) ==> CellTarget(n, row, col) == Err(IndexOutOfRange))
      && CellTarget(n, row, col) == CellTarget(n, row, col')
  {
  }

  // ---------------------------------------------------------------- the empty plate

  /** The number of column elements in the first `rows` rows: the length of `plate`. */
  function ColumnElements(rows: seq<Row>): nat
  {
    if rows == [] then 0 else ColumnElements(rows[..|rows| - 1]) + |rows[|rows| - 1].columns|
  }

  /** One empty list per column element of the whole table (lines 69-71). */
  function BlankPlate(table: Table): Plate
  {
    seq(ColumnElements(table), _ => [])
  }

  // ---------------------------------------------------------------- filling, as a specification

  /** The plate after the first `k` values of column `col` of row `row` were appended. */
  function PlaceCells(plate: Plate, row: Row, col: Column, k: nat): (r: Result<Plate>)
    requires k <= |col.cells|
    ensures r.Ok? ==> |r.value| == |plate|
  {
    if k == 0 then Ok(plate)
    else
      match PlaceCells(plate, row, col, k - 1)
      case Err(e) => Err(e)
      case Ok(p) =>
        match CellTarget(|p|, row, col)
        case Err(e) => Err(e)
        case Ok(t) => Ok(p[t := p[t] + [col.cells[k - 1]]])
  }

  /** The plate after the values of the first `c` columns of row `row` were appended. */
  function PlaceColumns(plate: Plate, row: Row, c: nat): (r: Result<Plate>)
    requires c <= |row.columns|
    ensures r.Ok? ==> |r.value| == |plate|
  {
    if c == 0 then Ok(plate)
    else
      match PlaceColumns(plate, row, c - 1)
      case Err(e) => Err(e)
      case Ok(p) => PlaceCells(p, row, row.columns[c - 1], |row.columns[c - 1].cells|)
  }

  /** The plate after the values of the first `i` rows of `table` were appended. */
  function PlaceRows(plate: Plate, table: Table, i: nat): (r: Result<Plate>)
    requires i <= |table|
    ensures r.Ok? ==> |r.value| == |plate|
  {
    if i == 0 then Ok(plate)
    else
      match PlaceRows(plate, table, i - 1)
      case Err(e) => Err(e)
      case Ok(p) => PlaceColumns(p, table[i - 1], |table[i - 1].columns|)
  }

  /** The plate of a whole table, or the first exception raised while filling it. */
  function Fill(table: Table): Result<Plate>
  {
    PlaceRows(BlankPlate(table), table, |table|)
  }

  // ---------------------------------------------------------------- filling, as the program does it

  /** Lines 66-71: one empty list per column element, row after row. */
  method MakeBlankPlate(table: Table) returns (plate: Plate)
    ensures plate == BlankPlate(table)
  {
    plate := [];
    var i := 0;
    while i < |table|
      invariant 0 <= i <= |table|
      invariant |plate| == ColumnElements(table[..i])
      invariant forall k :: 0 <= k < |plate| ==> plate[k] == []
    {
      var c := 0;
      while c < |table[i].columns|
        invariant 0 <= c <= |table[i].columns|
        invariant |plate| == ColumnElements(table[..i]) + c
        invariant forall k :: 0 <= k < |plate| ==> plate[k] == []
      {
        plate := plate + [[]];
        c := c + 1;
      }
      assert table[..i + 1][..i] == table[..i];
      i := i + 1;
    }
    assert table[..i] == table;
  }

  /** Line 76-79 for one column element: each value text is appended to the list named by
      the row `Index`, both attributes being converted again for every value. */
  method AppendColumn(plate: Plate, row: Row, col: Column) returns (r: Result<Plate>)
    ensures r == PlaceCells(plate, row, col, |col.cells|)
  {
    var current := plate;
    var k := 0;
    while k < |col.cells|
      invariant 0 <= k <= |col.cells|
      invariant PlaceCells(plate, row, col, k) == Ok(current)
    {
      var rowIndex := IndexAttribute(row.index);
      var colIndex := IndexAttribute(col.index);
      if rowIndex.Err? || colIndex.Err? {
        var e := if rowIndex.Err? then rowIndex.error else colIndex.error;
        CellsErrorSticks(plate, row, col, k + 1, |col.cells|, e);
        return Err(e);
      }
      var target := PyIndex(rowIndex.value - 1, |current|);
      if target.Err? {
        CellsErrorSticks(plate, row, col, k + 1, |col.cells|, target.error);
        return Err(target.error);
      }
      current := current[target.value := current[target.value] + [col.cells[k]]];
      k := k + 1;
    }
    r := Ok(current);
  }

  /** Lines 75-79 for one row element: its column elements in document order. */
  method AppendRow(plate: Plate, row: Row) returns (r: Result<Plate>)
    ensures r == PlaceColumns(plate, row, |row.columns|)
  {
    r := Ok(plate);
    var c := 0;
    while c < |row.columns| && r.Ok?
      invariant 0 <= c <= |row.columns|
      invariant r == PlaceColumns(plate, row, c)
    {
      assert PlaceColumns(plate, row, c + 1) == PlaceCells(r.value, row, row.columns[c], |row.columns[c].cells|);
      r := AppendColumn(r.value, row, row.columns[c]);
      c := c + 1;
    }
    if r.Err? {
      ColumnsErrorSticks(plate, row, c, |row.columns|, r.error);
    }
  }

  /** Lines 74-79: walks the rows in document order, appending each row's values; an
      exception ends the walk. */
  method AppendRows(plate: Plate, table: Table) returns (r: Result<Plate>)
    ensures r == PlaceRows(plate, table, |table|)
  {
    r := Ok(plate);
    var i := 0;
    while i < |table| && r.Ok?
      invariant 0 <= i <= |table|
      invariant r == PlaceRows(plate, table, i)
    {
      assert PlaceRows(plate, table, i + 1) == PlaceColumns(r.value, table[i], |table[i].columns|);
      r := AppendRow(r.value, table[i]);
      i := i + 1;
    }
    if r.Err? {
      RowsErrorSticks(plate, table, i, |table|, r.error);
    }
  }

  /** Lines 66-79: builds the blank plate, then fills it; the plate keeps one list per
      column element of the table. */
  method BuildPlate(table: Table) returns (r: Result<Plate>)
    ensures r == Fill(table)
    ensures r.Ok? ==> |r.value| == ColumnElements(table)
  {
    var blank := MakeBlankPlate(table);
    r := AppendRows(blank, table);
  }

  // ---------------------------------------------------------------- an exception aborts the fill

  lemma {:induction false} CellsErrorSticks(plate: Plate, row: Row, col: Column, k: nat, m: nat, e: Error)
    requires k <= m <= |col.cells|
    requires PlaceCells(plate, row, col, k) == Err(e)
    ensures PlaceCells(plate, row, col, m) == Err(e)
    decreases m
  {
    if m > k { CellsErrorSticks(plate, row, col, k, m - 1, e); }
  }

  lemma {:induction false} ColumnsErrorSticks(plate: Plate, row: Row, c: nat, m: nat, e: Error)
    requires c <= m <= |row.columns|
    requires PlaceColumns(plate, row, c) == Err(e)
    ensures PlaceColumns(plate, row, m) == Err(e)
    decreases m
  {
    if m > c { ColumnsErrorSticks(plate, row, c, m - 1, e); }
  }

  lemma {:induction false} RowsErrorSticks(plate: Plate, table: Table, i: nat, m: nat, e: Error)
    requires i <= m <= |table|
    requires PlaceRows(plate, table, i) == Err(e)
    ensures PlaceRows(plate, table, m) == Err(e)
    decreases m
  {
    if m > i { RowsErrorSticks(plate, table, i, m - 1, e); }
  }

  // ---------------------------------------------------------------- what the filled plate holds

  /** The values, in document order, of those among the first `c` columns of `row` whose
      values go to list `t` of a plate of `n` lists. */
  function ColumnTextsFor(n: nat, row: Row, c: nat, t: nat): seq<CellText>
    requires c <= |row.columns|
  {
    if c == 0 then []
    else
      ColumnTextsFor(n, row, c - 1, t) + ColumnShare(n, row, row.columns[c - 1], t)
  }

  /** The values of one column element if they go to list `t`, else nothing. */
  function ColumnShare(n: nat, row: Row, col: Column, t: nat): seq<CellText>
  {
    if |col.cells| > 0 && CellTarget(n, row, col) == Ok(t) then col.cells else []
  }

  /** The values, in document order, of the first `i` rows of `table` that go to list `t`. */
  function RowTextsFor(n: nat, table: Table, i: nat, t: nat): seq<CellText>
    requires i <= |table|
  {
    if i == 0 then [] else RowTextsFor(n, table, i - 1, t) + ColumnTextsFor(n, table[i - 1], |table[i - 1].columns|, t)
  }

  /** After `k` values of a column, list `t` has grown by those values, in order, when it is
      the column's target, and is unchanged otherwise. */
  lemma {:induction false} CellsContents(plate: Plate, row: Row, col: Column, k: nat, t: nat)
    requires k <= |col.cells| && PlaceCells(plate, row, col, k).Ok? && t < |plate|
    ensures PlaceCells(plate, row, col, k).value[t]
      == plate[t] + (if k > 0 && CellTarget(|plate|, row, col) == Ok(t) then col.cells[..k] else [])
  {
    if k > 0 {
      CellsContents(plate, row, col, k - 1, t);
      if CellTarget(|plate|, row, col) == Ok(t) {
        assert col.cells[..k] == col.cells[..k - 1] + [col.cells[k - 1]];
      }
    }
  }

  /** A column's values are appended, in order, to its target list only. */
  lemma ColumnContents(plate: Plate, row: Row, col: Column, t: nat)
    requires PlaceCells(plate, row, col, |col.cells|).Ok? && t < |plate|
    ensures PlaceCells(plate, row, col, |col.cells|).value[t] == plate[t] + ColumnShare(|plate|, row, col, t)
  {
    CellsContents(plate, row, col, |col.cells|, t);
    assert col.cells[..|col.cells|] == col.cells;
  }

  /** After the first `c` columns of a row, list `t` has grown by the values of the columns
      that target it, in document order. */
  lemma {:induction false} ColumnsContents(plate: Plate, row: Row, c: nat, t: nat)
    requires c <= |row.columns| && PlaceColumns(plate, row, c).Ok? && t < |plate|
    ensures PlaceColumns(plate, row, c).value[t] == plate[t] + ColumnTextsFor(|plate|, row, c, t)
  {
    if c > 0 {
      ColumnsContents(plate, row, c - 1, t);
      var p := PlaceColumns(plate, row, c - 1).value;
      ColumnContents(p, row, row.columns[c - 1], t);
    }
  }

  /** After the first `i` rows, list `t` has grown by the values of the rows that target it,
      in document order. */
  lemma {:induction false} RowsContents(plate: Plate, table: Table, i: nat, t: nat)
    requires i <= |table| && PlaceRows(plate, table, i).Ok? && t < |plate|
    ensures PlaceRows(plate, table, i).value[t] == plate[t] + RowTextsFor(|plate|, table, i, t)
  {
    if i > 0 {
      RowsContents(plate, table, i - 1, t);
      var p := PlaceRows(plate, table, i - 1).value;
      var row := table[i - 1];
      ColumnsContents(p, row, |row.columns|, t);
      var before := RowTextsFor(|plate|, table, i - 1, t);
      var added := ColumnTextsFor(|plate|, row, |row.columns|, t);
      assert PlaceRows(plate, table, i) == PlaceColumns(p, row, |row.columns|);
      assert RowTextsFor(|plate|, table, i, t) == before + added;
      assert (plate[t] + before) + added == plate[t] + (before + added);
    }
  }

  /** A filled plate has one list per column element, and list `t` holds, in document
      order, exactly the values of the columns whose row `Index` names list `t`. */
  lemma FillContents(table: Table)
    requires Fill(table).Ok?
    ensures |Fill(table).value| == ColumnElements(table)
    ensures forall t :: 0 <= t < ColumnElements(table) ==>
      Fill(table).value[t] == RowTextsFor(ColumnElements(table), table, |table|, t)
  {
    var blank := BlankPlate(table);
    forall t | 0 <= t < ColumnElements(table)
      ensures Fill(table).value[t] == RowTextsFor(ColumnElements(table), table, |table|, t)
    {
      RowsContents(blank, table, |table|, t);
    }
  }

  // ---------------------------------------------------------------- when the fill fails

  /** Column `c` of row `i` holds at least one value and its target cannot be computed. */
  predicate FailingColumn(n: nat, table: Table, i: int, c: int)
  {
    && 0 <= i < |table| && 0 <= c < |table[i].columns|
    && |table[i].columns[c].cells| > 0
    && CellTarget(n, table[i], table[i].columns[c]).Err?
  }

  lemma {:induction false} ColumnsFail(plate: Plate, table: Table, i: nat, c: nat)
    requires i < |table| && c <= |table[i].columns|
    ensures PlaceColumns(plate, table[i], c).Err? <==> exists c' :: c' < c && FailingColumn(|plate|, table, i, c')
  {
    if c > 0 {
      ColumnsFail(plate, table, i, c - 1);
      if PlaceColumns(plate, table[i], c - 1).Ok? {
        var col := table[i].columns[c - 1];
        var p := PlaceColumns(plate, table[i], c - 1).value;
        if |col.cells| > 0 && CellTarget(|plate|, table[i], col).Err? {
          assert PlaceCells(p, table[i], col, 1).Err?;
          CellsErrorSticks(p, table[i], col, 1, |col.cells|, CellTarget(|plate|, table[i], col).error);
          assert FailingColumn(|plate|, table, i, c - 1);
        } else {
          CellsSucceed(p, table[i], col, |col.cells|);
        }
      }
    }
  }

  lemma {:induction false} CellsSucceed(plate: Plate, row: Row, col: Column, k: nat)
    requires k <= |col.cells|
    requires k == 0 || CellTarget(|plate|, row, col).Ok?
    ensures PlaceCells(plate, row, col, k).Ok?
  {
    if k > 0 { CellsSucceed(plate, row, col, k - 1); }
  }

  lemma {:induction false} RowsFail(plate: Plate, table: Table, i: nat)
    requires i <= |table|
    ensures PlaceRows(plate, table, i).Err? <==>
      exists i', c :: i' < i && FailingColumn(|plate|, table, i', c)
  {
    if i > 0 {
      RowsFail(plate, table, i - 1);
      if PlaceRows(plate, table, i - 1).Ok? {
        var p := PlaceRows(plate, table, i - 1).value;
        ColumnsFail(p, table, i - 1, |table[i - 1].columns|);
        if PlaceRows(plate, table, i).Err? {
          var c :| c < |table[i - 1].columns| && FailingColumn(|p|, table, i - 1, c);
          assert FailingColumn(|plate|, table, i - 1, c);
        }
        if exists i', c :: i' < i && FailingColumn(|plate|, table, i', c) {
          var i', c :| i' < i && FailingColumn(|plate|, table, i', c);
          assert i' == i - 1;
          assert FailingColumn(|p|, table, i - 1, c);
        }
      }
    }
  }

  /** The fill raises exactly when some column element with values has a row or column
      `Index` that is missing or not an integer, or a row `Index` outside the plate. */
  lemma FillFails(table: Table)
    ensures Fill(table).Err? <==>
      exists i, c :: FailingColumn(ColumnElements(table), table, i, c)
  {
    var n := ColumnElements(table);
    var blank := BlankPlate(table);
    RowsFail(blank, table, |table|);
    assert |blank| == n;
    assert Fill(table) == PlaceRows(blank, table, |table|);
    if PlaceRows(blank, table, |table|).Err? {
      var i, c :| i < |table| && FailingColumn(|blank|, table, i, c);
      assert FailingColumn(n, table, i, c);
      assert Fill(table).Err?;
      assert exists i, c :: FailingColumn(ColumnElements(table), table, i, c);
    }
  }

  // ---------------------------------------------------------------- the column Index is ignored

  /** Two tables that differ at most in the `Index` attributes of their column elements,
      every column that holds values having a readable `Index` in both. */
  predicate SameButColumnIndex(t1: Table, t2: Table)
  {
    && |t1| == |t2|
    && forall i :: 0 <= i < |t1| ==>
      && t1[i].index == t2[i].index
      && |t1[i].columns| == |t2[i].columns|
      && forall c :: 0 <= c < |t1[i].columns| ==>
        && t1[i].columns[c].cells == t2[i].columns[c].cells
        && (|t1[i].columns[c].cells| > 0 ==>
              IndexAttribute(t1[i].columns[c].index).Ok? && IndexAttribute(t2[i].columns[c].index).Ok?)
  }

  lemma {:induction false} SameColumnElements(t1: Table, t2: Table)
    requires SameButColumnIndex(t1, t2)
    ensures ColumnElements(t1) == ColumnElements(t2)
    decreases |t1|
  {
    if t1 != [] {
      var n := |t1| - 1;
      assert SameButColumnIndex(t1[..n], t2[..n]);
      SameColumnElements(t1[..n], t2[..n]);
    }
  }

  lemma {:induction false} SameRowPlacement(plate: Plate, t1: Table, t2: Table, i: nat)
    requires SameButColumnIndex(t1, t2) && i <= |t1|
    ensures PlaceRows(plate, t1, i) == PlaceRows(plate, t2, i)
  {
    if i > 0 {
      SameRowPlacement(plate, t1, t2, i - 1);
      if PlaceRows(plate, t1, i - 1).Ok? {
        var p := PlaceRows(plate, t1, i - 1).value;
        SameColumnPlacement(p, t1[i - 1], t2[i - 1], |t1[i - 1].columns|);
      }
    }
  }

  lemma {:induction false} SameColumnPlacement(plate: Plate, r1: Row, r2: Row, c: nat)
    requires r1.index == r2.index && |r1.columns| == |r2.columns| && c <= |r1.columns|
    requires forall c' :: 0 <= c' < |r1.columns| ==>
      && r1.columns[c'].cells == r2.columns[c'].cells
      && (|r1.columns[c'].cells| > 0 ==>
            IndexAttribute(r1.columns[c'].index).Ok? && IndexAttribute(r2.columns[c'].index).Ok?)
    ensures PlaceColumns(plate, r1, c) == PlaceColumns(plate, r2, c)
  {
    if c > 0 {
      SameColumnPlacement(plate, r1, r2, c - 1);
      if PlaceColumns(plate, r1, c - 1).Ok? {
        var p := PlaceColumns(plate, r1, c - 1).value;
        SameCellPlacement(p, r1, r1.columns[c - 1], r2, r2.columns[c - 1], |r1.columns[c - 1].cells|);
      }
    }
  }

  lemma {:induction false} SameCellPlacement(plate: Plate, r1: Row, c1: Column, r2: Row, c2: Column, k: nat)
    requires r1.index == r2.index && c1.cells == c2.cells && k <= |c1.cells|
    requires |c1.cells| > 0 ==> IndexAttribute(c1.index).Ok? && IndexAttribute(c2.index).Ok?
    ensures PlaceCells(plate, r1, c1, k) == PlaceCells(plate, r2, c2, k)
  {
    if k > 0 {
      SameCellPlacement(plate, r1, c1, r2, c2, k - 1);
    }
  }

  /** Rewriting the column `Index` attributes (keeping them readable) never moves a value:
      the plate depends on the row `Index` and on document order alone. */
  lemma ColumnIndexIgnored(t1: Table, t2: Table)
    requires SameButColumnIndex(t1, t2)
    ensures Fill(t1) == Fill(t2)
  {
    SameColumnElements(t1, t2);
    SameRowPlacement(BlankPlate(t1), t1, t2, |t1|);
  }
}

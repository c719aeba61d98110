/** Extraction of the six wavelength blocks of one plate (plate_analyzer.py:46-54, 83-99).

    Each block is the slice `plate[first:last]` of ten plate rows. Its wavelength is the
    text of `block[1][1]` up to the first space; its data rows are `block[2:]`, its data
    cells `row[1:]`, and the cell at data position (i, j) becomes a record for well
    `letters[i] + str(numbers[j])`, with the saturation sentinel replaced by 4.0. */
module Blocks {
  import opened Outcome
  import opened PyText
  import opened Wells
  import opened PlateGrid

  /** `row_n_wave_length_reads`: channel number, first plate row and end plate row. */
  const BlockTable: seq<(nat, nat, nat)> :=
    [(0, 52, 62), (1, 62, 72), (2, 72, 82), (3, 82, 92), (4, 92, 102), (5, 102, 112)]

  /** The text a saturated well reads as, and the absorbance recorded for it. */
  const SaturationSentinel: string := "#SAT"
  const SaturationCeiling: real := 4.0

  /** What `df_list` holds in its fourth column: the float 4.0 for a saturated well,
      otherwise the cell text exactly as read (possibly None). */
  datatype Absorbance = Numeric(x: real) | Raw(text: CellText)

  /** One `[day, wave_length, cell, collumn]` entry of `df_list`. */
  datatype Record = Record(day: int, wavelength: string, well: string, value: Absorbance)

  datatype Block = Block(wavelength: string, records: seq<Record>)

  /** The six blocks are the consecutive ten-row ranges `[52 + 10k, 62 + 10k)`: they do not
      overlap and leave no gap between them. */
  lemma BlockTableLayout()
    ensures |BlockTable| == 6
    ensures forall k :: 0 <= k < 6 ==> BlockTable[k] == (k, 52 + 10 * k, 62 + 10 * k)
  {
  }

  /** Python's `xs[first:last]` for non-negative bounds: both ends are clamped to the list. */
  function Slice(plate: Plate, first: nat, last: nat): (r: Plate)
    ensures first <= last <= |plate| ==> r == plate[first..last]
    ensures |plate| <= first ==> r == []
    ensures first <= |plate| < last ==> r == plate[first..]
  {
    var lo := if first < |plate| then first else |plate|;
    var hi := if last < |plate| then last else |plate|;
    if lo <= hi then plate[lo..hi] else []
  }

  /** `row[1:]`: a data row without its leading row header. */
  function DataCells(row: seq<CellText>): seq<CellText>
  {
    if |row| <= 1 then [] else row[1..]
  }

  /** Lines 95-96: the sentinel becomes the ceiling value; every other text is kept. */
  function CellValue(text: CellText): Absorbance
  {
    if text == Some(SaturationSentinel) then Numeric(SaturationCeiling) else Raw(text)
  }

  /** Line 88: `new_plate[1][1].split(" ")[0]`. */
  function WavelengthLabel(rows: Plate): Result<string>
  {
    if |rows| < 2 || |rows[1]| < 2 then Err(IndexOutOfRange)
    else
      match rows[1][1]
      case None => Err(NoText)
      case Some(t) => Ok(Split(t, ' ')[0])
  }

  /** The records of data row `i`: `letters[i]` fails past the eighth row, `numbers[j]`
      past the twelfth cell. */
  function RowRecords(day: int, wavelength: string, i: nat, cells: seq<CellText>): Result<seq<Record>>
  {
    if |cells| == 0 then Ok([])
    else if i >= |Letters| || |cells| > ColumnCount then Err(IndexOutOfRange)
    else Ok(seq(|cells|, j requires 0 <= j < |cells| =>
                Record(day, wavelength, WellLabel(i, j), CellValue(cells[j]))))
  }

  /** The records of the first `n` data rows. */
  function DataRecords(day: int, wavelength: string, data: Plate, n: nat): Result<seq<Record>>
    requires n <= |data|
  {
    if n == 0 then Ok([])
    else
      match DataRecords(day, wavelength, data, n - 1)
      case Err(e) => Err(e)
      case Ok(before) =>
        match RowRecords(day, wavelength, n - 1, DataCells(data[n - 1]))
        case Err(e) => Err(e)
        case Ok(row) => Ok(before + row)
  }

  /** The block of plate rows `[first, last)` read for `day`, or the exception it raises. */
  function BlockSpec(plate: Plate, day: int, first: nat, last: nat): Result<Block>
  {
    var rows := Slice(plate, first, last);
    match WavelengthLabel(rows)
    case Err(e) => Err(e)
    case Ok(wavelength) =>
      match DataRecords(day, wavelength, rows[2..], |rows| - 2)
      case Err(e) => Err(e)
      case Ok(records) => Ok(Block(wavelength, records))
  }

  /** Lines 92-98: the cells of data row `i`, counted by `j`. */
  method ReadDataRow(day: int, wavelength: string, i: nat, cells: seq<CellText>) returns (r: Result<seq<Record>>)
    ensures r == RowRecords(day, wavelength, i, cells)
  {
    var records: seq<Record> := [];
    var j := 0;
    while j < |cells|
      invariant 0 <= j <= |cells|
      invariant j > 0 ==> i < |Letters| && j <= ColumnCount
      invariant |records| == j
      invariant forall jj :: 0 <= jj < j ==>
        records[jj] == Record(day, wavelength, WellLabel(i, jj), CellValue(cells[jj]))
    {
      if i >= |Letters| || j >= ColumnCount {
        return Err(IndexOutOfRange);
      }
      var well := [Letters[i]] + ShowNat(j + 1);
      var value := if cells[j] == Some(SaturationSentinel) then Numeric(SaturationCeiling) else Raw(cells[j]);
      records := records + [Record(day, wavelength, well, value)];
      j := j + 1;
    }
    if |cells| > 0 {
      assert records == seq(|cells|, jj requires 0 <= jj < |cells| =>
        Record(day, wavelength, WellLabel(i, jj), CellValue(cells[jj])));
    }
    r := Ok(records);
  }

  /** Lines 84-99: one block, walking its data rows with the counter `i`. */
  method ReadBlock(plate: Plate, day: int, first: nat, last: nat) returns (r: Result<Block>)
    ensures r == BlockSpec(plate, day, first, last)
  {
    var rows: Plate := Slice(plate, first, last);
    if |rows| < 2 || |rows[1]| < 2 {
      return Err(IndexOutOfRange);
    }
    if rows[1][1].None? {
      return Err(NoText);
    }
    var wavelength := Split(rows[1][1].value, ' ')[0];
    var data: Plate := rows[2..];
    var records: seq<Record> := [];
    var i := 0;
    while i < |data|
      invariant 0 <= i <= |data|
      invariant DataRecords(day, wavelength, data, i) == Ok(records)
    {
      var row := ReadDataRow(day, wavelength, i, DataCells(data[i]));
      if row.Err? {
        DataErrorSticks(day, wavelength, data, i + 1, |data|, row.error);
        return Err(row.error);
      }
      records := records + row.value;
      i := i + 1;
    }
    r := Ok(Block(wavelength, records));
  }

  lemma {:induction false} DataErrorSticks(day: int, wavelength: string, data: Plate, n: nat, m: nat, e: Error)
    requires n <= m <= |data|
    requires DataRecords(day, wavelength, data, n) == Err(e)
    ensures DataRecords(day, wavelength, data, m) == Err(e)
    decreases m
  {
    if m > n { DataErrorSticks(day, wavelength, data, n, m - 1, e); }
  }

  // ---------------------------------------------------------------- sentinel

  /** Exactly the text `#SAT` becomes the number 4.0; every other text, None included, is
      recorded unchanged. */
  lemma SentinelReplaced(text: CellText)
    ensures CellValue(text).Numeric? <==> text == Some(SaturationSentinel)
    ensures CellValue(text).Numeric? ==> CellValue(text).x == 4.0
    ensures CellValue(text).Raw? ==> CellValue(text).text == text
  {
  }

  // ---------------------------------------------------------------- when a block fails

  /** Data row `i` cannot be read: it has data cells, and either no letter is left for it
      or it has more data cells than there are column numbers. */
  predicate BadRow(data: Plate, i: int)
  {
    0 <= i < |data| && |DataCells(data[i])| > 0 &&
    (i >= |Letters| || |DataCells(data[i])| > ColumnCount)
  }

  /** Reading the first `n` data rows fails exactly when one of them is a bad row, and the
      failure is always an index failure. */
  lemma {:induction false} DataRecordsFail(day: int, wavelength: string, data: Plate, n: nat)
    requires n <= |data|
    ensures DataRecords(day, wavelength, data, n).Err? <==> exists i :: 0 <= i < n && BadRow(data, i)
    ensures DataRecords(day, wavelength, data, n).Err? ==>
      DataRecords(day, wavelength, data, n).error == IndexOutOfRange
  {
    if n > 0 {
      DataRecordsFail(day, wavelength, data, n - 1);
      if BadRow(data, n - 1) {
        assert DataRecords(day, wavelength, data, n).Err?;
      } else if DataRecords(day, wavelength, data, n - 1).Err? {
        var i :| 0 <= i < n - 1 && BadRow(data, i);
        assert 0 <= i < n && BadRow(data, i);
      } else {
        assert DataRecords(day, wavelength, data, n).Ok?;
        forall i | 0 <= i < n ensures !BadRow(data, i) {
          if i < n - 1 {
            assert !(0 <= i < n - 1 && BadRow(data, i));
          }
        }
      }
    }
  }

  /** A block of at most ten plate rows fails only on its wavelength cell or on a data row
      with more than twelve data cells: it has at most eight data rows, so it never runs
      out of letters. */
  lemma ShortBlockFails(plate: Plate, day: int, first: nat, last: nat)
    requires last <= first + 10
    ensures var rows := Slice(plate, first, last);
      BlockSpec(plate, day, first, last).Err? <==>
        WavelengthLabel(rows).Err? ||
        exists i :: 2 <= i < |rows| && |DataCells(rows[i])| > ColumnCount
  {
    var rows := Slice(plate, first, last);
    if WavelengthLabel(rows).Ok? {
      var data := rows[2..];
      assert |data| <= |Letters|;
      DataRecordsFail(day, WavelengthLabel(rows).value, data, |data|);
      if exists i :: 0 <= i < |data| && BadRow(data, i) {
        var i :| 0 <= i < |data| && BadRow(data, i);
        assert rows[i + 2] == data[i];
      }
      if exists i :: 2 <= i < |rows| && |DataCells(rows[i])| > ColumnCount {
        var i :| 2 <= i < |rows| && |DataCells(rows[i])| > ColumnCount;
        assert data[i - 2] == rows[i] && BadRow(data, i - 2);
      }
    }
  }

  /** Every block of the table fails only on its wavelength cell or on a data row with
      more than twelve data cells; a plate that ends early raises nothing (the slice is
      cut short instead). */
  lemma TableBlockFails(plate: Plate, day: int, k: nat)
    requires k < |BlockTable|
    ensures var (_, first, last) := BlockTable[k];
      var rows := Slice(plate, first, last);
      BlockSpec(plate, day, first, last).Err? <==>
        WavelengthLabel(rows).Err? ||
        exists i :: 2 <= i < |rows| && |DataCells(rows[i])| > ColumnCount
  {
    BlockTableLayout();
    ShortBlockFails(plate, day, BlockTable[k].1, BlockTable[k].2);
  }

  // ---------------------------------------------------------------- what a block holds

  /** Each data row holds a row header and twelve data cells. */
  predicate FullRows(data: Plate, n: nat)
    requires n <= |data|
  {
    forall i :: 0 <= i < n ==> |data[i]| == ColumnCount + 1
  }

  /** The records of `n` full data rows: twelve per row, in row-major order, record `k`
      belonging to well (k / 12, k % 12). */
  lemma {:induction false} FullDataRecords(day: int, wavelength: string, data: Plate, n: nat)
    requires n <= |data| && n <= |Letters|
    requires FullRows(data, n)
    ensures DataRecords(day, wavelength, data, n).Ok?
    ensures |DataRecords(day, wavelength, data, n).value| == 12 * n
    ensures forall k :: 0 <= k < 12 * n ==>
      DataRecords(day, wavelength, data, n).value[k] ==
        Record(day, wavelength, WellLabel(k / 12, k % 12), CellValue(data[k / 12][1 + k % 12]))
  {
    if n > 0 {
      DataRecordsFail(day, wavelength, data, n);
      FullDataRecords(day, wavelength, data, n - 1);
      var before := DataRecords(day, wavelength, data, n - 1).value;
      var row := RowRecords(day, wavelength, n - 1, DataCells(data[n - 1])).value;
      var recs := DataRecords(day, wavelength, data, n).value;
      assert recs == before + row;
      forall k | 12 * (n - 1) <= k < 12 * n
        ensures recs[k] ==
          Record(day, wavelength, WellLabel(k / 12, k % 12), CellValue(data[k / 12][1 + k % 12]))
      {
        var j := k - 12 * (n - 1);
        assert k / 12 == n - 1 && k % 12 == j;
        assert recs[k] == row[j];
      }
    }
  }

  /** A complete ten-row block, whose eight data rows each hold a header and twelve cells,
      yields exactly 96 records: record `k` is the well in data row k / 12 and column
      k % 12, carrying the file's day, the block's wavelength and the cell's value, and no
      two records name the same well. */
  lemma FullBlock(plate: Plate, day: int, first: nat)
    requires first + 10 <= |plate|
    requires WavelengthLabel(plate[first..first + 10]).Ok?
    requires forall i :: first + 2 <= i < first + 10 ==> |plate[i]| == ColumnCount + 1
    ensures BlockSpec(plate, day, first, first + 10).Ok?
    ensures var b := BlockSpec(plate, day, first, first + 10).value;
      b.wavelength == WavelengthLabel(plate[first..first + 10]).value &&
      |b.records| == 96 &&
      (forall k :: 0 <= k < 96 ==>
        b.records[k] == Record(day, b.wavelength, WellLabel(k / 12, k % 12),
                               CellValue(plate[first + 2 + k / 12][1 + k % 12]))) &&
      (forall k, k' :: 0 <= k < k' < 96 ==> b.records[k].well != b.records[k'].well)
  {
    var rows := Slice(plate, first, first + 10);
    var wavelength := WavelengthLabel(rows).value;
    var data := rows[2..];
    assert |data| == 8;
    assert FullRows(data, 8) by {
      forall i | 0 <= i < 8 ensures |data[i]| == ColumnCount + 1 {
        assert data[i] == plate[first + 2 + i];
      }
    }
    FullDataRecords(day, wavelength, data, 8);
    var recs := DataRecords(day, wavelength, data, 8).value;
    forall k, k' | 0 <= k < k' < 96 ensures recs[k].well != recs[k'].well {
      assert k == 12 * (k / 12) + k % 12 && k' == 12 * (k' / 12) + k' % 12;
      if recs[k].well == recs[k'].well {
        WellLabelInjective(k / 12, k % 12, k' / 12, k' % 12);
      }
    }
  }

  /** Every record of a block carries the file's day and the block's wavelength, and at most
      twelve records come from each data row. */
  lemma {:induction false} DataRecordsShape(day: int, wavelength: string, data: Plate, n: nat)
    requires n <= |data| && DataRecords(day, wavelength, data, n).Ok?
    ensures |DataRecords(day, wavelength, data, n).value| <= 12 * n
    ensures forall r :: r in DataRecords(day, wavelength, data, n).value ==>
      r.day == day && r.wavelength == wavelength
  {
    if n > 0 {
      DataRecordsShape(day, wavelength, data, n - 1);
    }
  }

  /** A block read from a table entry has at most 96 records, each carrying the file's day
      and the block's wavelength. */
  lemma TableBlockShape(plate: Plate, day: int, k: nat)
    requires k < |BlockTable|
    requires BlockSpec(plate, day, BlockTable[k].1, BlockTable[k].2).Ok?
    ensures var b := BlockSpec(plate, day, BlockTable[k].1, BlockTable[k].2).value;
      |b.records| <= 96 &&
      forall r :: r in b.records ==> r.day == day && r.wavelength == b.wavelength
  {
    BlockTableLayout();
    var rows := Slice(plate, BlockTable[k].1, BlockTable[k].2);
    DataRecordsShape(day, WavelengthLabel(rows).value, rows[2..], |rows| - 2);
  }
}

/** `parse_plate_files` (plate_analyzer.py:44-104): the walk over a directory listing that
    turns every export file into records, one day and six wavelength labels, and returns the
    records with the days sorted and the labels de-duplicated and sorted.

    Reading and parsing the XML document (`ET.parse`, `getroot`, `root[3][0]`) is outside
    the model: each file arrives as its name and its already-parsed table. */
module PlateFiles {
  import opened Outcome
  import opened PyText
  import opened Sorting
  import opened PlateGrid
  import opened Blocks

  /** A directory entry: its file name and the worksheet table found inside it. */
  datatype ExportFile = ExportFile(name: string, table: Table)

  /** What one export file contributes: its day, its records and its six labels. */
  datatype FileResult = FileResult(day: int, records: seq<Record>, labels: seq<string>)

  /** The three accumulators `df_list`, `days_list` and `wave_lengths_list` before sorting. */
  datatype Harvest = Harvest(records: seq<Record>, days: seq<int>, labels: seq<string>)

  /** The returned triple `(df_list, days_list, wave_lengths_list)`. */
  datatype Dataset = Dataset(records: seq<Record>, days: seq<int>, wavelengths: seq<string>)

  /** Line 57: a file is read when `.xml` occurs anywhere in its name. */
  const ExportMarker: string := ".xml"

  predicate IsExport(name: string)
  {
    Contains(name, ExportMarker)
  }

  // ---------------------------------------------------------------- the day of a file

  /** Line 59: the second `_`-separated field of the name, up to its first `D`, read by
      `int()`. A name without `_` has no second field. */
  function DayOf(name: string): Result<int>
  {
    var parts := Split(name, '_');
    if |parts| < 2 then Err(IndexOutOfRange) else ParseInt(Split(parts[1], 'D')[0])
  }

  /** A name `<prefix>_<n>D<rest>` whose prefix has no underscore is read as day `n`,
      whatever follows the `D`. */
  lemma DayOfName(prefix: string, n: nat, rest: string)
    requires '_' !in prefix
    ensures DayOf(prefix + "_" + ShowNat(n) + "D" + rest) == Ok(n)
  {
    var digits := ShowNat(n);
    var token := digits + "D";
    assert '_' !in token && 'D' !in digits by {
      forall k | 0 <= k < |digits| ensures digits[k] != '_' && digits[k] != 'D' {
        assert IsDigit(digits[k]);
      }
    }
    var name := prefix + "_" + ShowNat(n) + "D" + rest;
    assert name == prefix + ['_'] + (token + rest);
    SplitAfterField(prefix, token + rest, '_');
    SplitFirstAfterPrefix(token, rest, '_');
    var field := Split(name, '_')[1];
    assert field == token + Split(rest, '_')[0];
    assert field == digits + ['D'] + Split(rest, '_')[0];
    SplitAfterField(digits, Split(rest, '_')[0], 'D');
    ParseShowNat(n);
  }

  /** The naming scheme of the exports: `sample_12D_rep1.xml` is day 12. */
  lemma DayOfSample()
    ensures DayOf("sample_12D_rep1.xml") == Ok(12)
  {
    assert ShowNat(12) == "12";
    assert "sample_12D_rep1.xml" == "sample" + "_" + ShowNat(12) + "D" + "_rep1.xml";
    DayOfName("sample", 12, "_rep1.xml");
  }

  /** A name without an underscore fails with an index failure. */
  lemma DayOfWithoutUnderscore(name: string)
    requires '_' !in name
    ensures DayOf(name) == Err(IndexOutOfRange)
  {
    SplitNoSeparator(name, '_');
  }

  // ---------------------------------------------------------------- one file

  /** The records and labels of the first `n` entries of the block table. */
  function BlocksUpTo(plate: Plate, day: int, n: nat): Result<(seq<Record>, seq<string>)>
    requires n <= |BlockTable|
  {
    if n == 0 then Ok(([], []))
    else
      match BlocksUpTo(plate, day, n - 1)
      case Err(e) => Err(e)
      case Ok((records, labels)) =>
        match BlockSpec(plate, day, BlockTable[n - 1].1, BlockTable[n - 1].2)
        case Err(e) => Err(e)
        case Ok(block) => Ok((records + block.records, labels + [block.wavelength]))
  }

  /** Lines 59-99 for one file: the day, then the plate, then the six blocks. */
  function FileSpec(file: ExportFile): Result<FileResult>
  {
    match DayOf(file.name)
    case Err(e) => Err(e)
    case Ok(day) =>
      match Fill(file.table)
      case Err(e) => Err(e)
      case Ok(plate) =>
        match BlocksUpTo(plate, day, |BlockTable|)
        case Err(e) => Err(e)
        case Ok((records, labels)) => Ok(FileResult(day, records, labels))
  }

  lemma {:induction false} BlocksErrorSticks(plate: Plate, day: int, n: nat, m: nat, e: Error)
    requires n <= m <= |BlockTable|
    requires BlocksUpTo(plate, day, n) == Err(e)
    ensures BlocksUpTo(plate, day, m) == Err(e)
    decreases m
  {
    if m > n { BlocksErrorSticks(plate, day, n, m - 1, e); }
  }

  /** Lines 59-99: reads one export file. */
  method ReadFile(file: ExportFile) returns (r: Result<FileResult>)
    ensures r == FileSpec(file)
  {
    var day := DayOf(file.name);
    if day.Err? {
      return Err(day.error);
    }
    var plate := BuildPlate(file.table);
    if plate.Err? {
      return Err(plate.error);
    }
    var records: seq<Record> := [];
    var labels: seq<string> := [];
    var k := 0;
    while k < |BlockTable|
      invariant 0 <= k <= |BlockTable|
      invariant BlocksUpTo(plate.value, day.value, k) == Ok((records, labels))
    {
      var (_, first, last) := BlockTable[k];
      var block := ReadBlock(plate.value, day.value, first, last);
      if block.Err? {
        BlocksErrorSticks(plate.value, day.value, k + 1, |BlockTable|, block.error);
        return Err(block.error);
      }
      labels := labels + [block.value.wavelength];
      records := records + block.value.records;
      k := k + 1;
    }
    r := Ok(FileResult(day.value, records, labels));
  }

  /** The first `n` blocks give one label each and at most 96 records each, every record
      carrying the day and one of the labels. */
  lemma {:induction false} BlocksShape(plate: Plate, day: int, n: nat)
    requires n <= |BlockTable| && BlocksUpTo(plate, day, n).Ok?
    ensures var (records, labels) := BlocksUpTo(plate, day, n).value;
      |labels| == n && |records| <= 96 * n &&
      forall r :: r in records ==> r.day == day && r.wavelength in labels
  {
    if n > 0 {
      BlocksShape(plate, day, n - 1);
      TableBlockShape(plate, day, n - 1);
    }
  }

  /** A file that is read gives its day, exactly six labels and at most 576 records, and
      every record carries the file's day and one of its six labels. */
  lemma FileShape(file: ExportFile)
    requires FileSpec(file).Ok?
    ensures var f := FileSpec(file).value;
      DayOf(file.name) == Ok(f.day) && |f.labels| == 6 && |f.records| <= 576 &&
      forall r :: r in f.records ==> r.day == f.day && r.wavelength in f.labels
  {
    BlocksShape(Fill(file.table).value, DayOf(file.name).value, |BlockTable|);
  }

  // ---------------------------------------------------------------- the directory

  /** The accumulators after one more directory entry: an export file adds its day, its
      records and its labels, any other entry changes nothing, and a failure stays. */
  function AddEntry(acc: Result<Harvest>, file: ExportFile): Result<Harvest>
  {
    match acc
    case Err(e) => Err(e)
    case Ok(h) =>
      if !IsExport(file.name) then Ok(h)
      else
        match FileSpec(file)
        case Err(e) => Err(e)
        case Ok(f) => Ok(Harvest(h.records + f.records, h.days + [f.day], h.labels + f.labels))
  }

  /** An entry whose name does not contain `.xml` leaves the accumulators as they were. */
  lemma SkipEntry(acc: Result<Harvest>, file: ExportFile)
    requires !IsExport(file.name)
    ensures AddEntry(acc, file) == acc
  {
  }

  /** The accumulators after the first `n` directory entries. */
  function CollectUpTo(files: seq<ExportFile>, n: nat): Result<Harvest>
    requires n <= |files|
  {
    if n == 0 then Ok(Harvest([], [], [])) else AddEntry(CollectUpTo(files, n - 1), files[n - 1])
  }

  /** Lines 44-104: the whole directory, then the two sorts of lines 100-102. */
  function PlateFilesSpec(files: seq<ExportFile>): Result<Dataset>
  {
    match CollectUpTo(files, |files|)
    case Err(e) => Err(e)
    case Ok(h) => Ok(Dataset(h.records, SortInts(h.days), SortDistinct(h.labels)))
  }

  lemma {:induction false} CollectErrorSticks(files: seq<ExportFile>, n: nat, m: nat, e: Error)
    requires n <= m <= |files|
    requires CollectUpTo(files, n) == Err(e)
    ensures CollectUpTo(files, m) == Err(e)
    decreases m
  {
    if m > n { CollectErrorSticks(files, n, m - 1, e); }
  }

  /** Lines 57-99 for directory entry `n`: an export file adds its day, its records and its
      labels to the three accumulators; any other entry is skipped. */
  method CollectEntry(files: seq<ExportFile>, n: nat, h: Harvest) returns (r: Result<Harvest>)
    requires n < |files| && CollectUpTo(files, n) == Ok(h)
    ensures r == CollectUpTo(files, n + 1)
  {
    if !IsExport(files[n].name) {
      return Ok(h);
    }
    var file := ReadFile(files[n]);
    if file.Err? {
      return Err(file.error);
    }
    r := Ok(Harvest(h.records + file.value.records, h.days + [file.value.day], h.labels + file.value.labels));
  }

  /** `parse_plate_files`: walks the directory listing in order, reading every export file
      and skipping the rest; the first failure aborts the whole walk. */
  method ParsePlateFiles(files: seq<ExportFile>) returns (r: Result<Dataset>)
    ensures r == PlateFilesSpec(files)
  {
    var harvest: Result<Harvest> := Ok(Harvest([], [], []));
    var n := 0;
    while n < |files| && harvest.Ok?
      invariant 0 <= n <= |files|
      invariant harvest == CollectUpTo(files, n)
    {
      harvest := CollectEntry(files, n, harvest.value);
      n := n + 1;
    }
    if harvest.Err? {
      CollectErrorSticks(files, n, |files|, harvest.error);
      return Err(harvest.error);
    }
    var h := harvest.value;
    r := Ok(Dataset(h.records, SortInts(h.days), SortDistinct(h.labels)));
  }

  // ---------------------------------------------------------------- what the walk promises

  /** The export files among the first `n` entries, in directory order. */
  function ExportsUpTo(files: seq<ExportFile>, n: nat): (e: seq<ExportFile>)
    requires n <= |files|
    ensures |e| <= n
  {
    if n == 0 then []
    else if IsExport(files[n - 1].name) then ExportsUpTo(files, n - 1) + [files[n - 1]]
    else ExportsUpTo(files, n - 1)
  }

  /** The files read are exactly the entries walked so far whose name contains `.xml`. */
  lemma {:induction false} ExportsMembers(files: seq<ExportFile>, n: nat)
    requires n <= |files|
    ensures forall f :: f in ExportsUpTo(files, n) <==> f in files[..n] && IsExport(f.name)
  {
    if n > 0 {
      ExportsMembers(files, n - 1);
      assert files[..n] == files[..n - 1] + [files[n - 1]];
    }
  }

  /** A file that is read fails the whole walk. Conversely, the walk fails only through
      a file that is read: other entries are never looked at. */
  predicate FailingExport(files: seq<ExportFile>, i: int)
  {
    0 <= i < |files| && IsExport(files[i].name) && FileSpec(files[i]).Err?
  }

  lemma {:induction false} CollectFails(files: seq<ExportFile>, n: nat)
    requires n <= |files|
    ensures CollectUpTo(files, n).Err? <==> exists i :: 0 <= i < n && FailingExport(files, i)
  {
    if n > 0 {
      CollectFails(files, n - 1);
      if FailingExport(files, n - 1) {
        if CollectUpTo(files, n - 1).Err? {
          var i :| 0 <= i < n - 1 && FailingExport(files, i);
          assert 0 <= i < n && FailingExport(files, i);
        }
      } else if CollectUpTo(files, n - 1).Err? {
        var i :| 0 <= i < n - 1 && FailingExport(files, i);
        assert 0 <= i < n && FailingExport(files, i);
      } else {
        forall i | 0 <= i < n ensures !FailingExport(files, i) {
          if i < n - 1 {
            assert !(0 <= i < n - 1 && FailingExport(files, i));
          }
        }
      }
    }
  }

  /** The whole parse fails exactly when some export file in the listing fails. */
  lemma ParseFails(files: seq<ExportFile>)
    ensures PlateFilesSpec(files).Err? <==> exists i :: 0 <= i < |files| && FailingExport(files, i)
  {
    CollectFails(files, |files|);
  }

  /** Each export file among the first `n` entries adds exactly its own day (duplicates
      kept, in directory order) and six labels; entries that are not exports add nothing;
      every record carries a collected day and a collected label. */
  lemma {:induction false} HarvestShape(files: seq<ExportFile>, n: nat)
    requires n <= |files| && CollectUpTo(files, n).Ok?
    ensures var h := CollectUpTo(files, n).value;
      var exports := ExportsUpTo(files, n);
      |h.days| == |exports| &&
      (forall k :: 0 <= k < |exports| ==> DayOf(exports[k].name) == Ok(h.days[k])) &&
      |h.labels| == 6 * |h.days| && |h.records| <= 576 * |h.days| &&
      (forall r :: r in h.records ==> r.day in h.days && r.wavelength in h.labels)
  {
    if n > 0 {
      HarvestShape(files, n - 1);
      var h := CollectUpTo(files, n - 1).value;
      if IsExport(files[n - 1].name) {
        FileShape(files[n - 1]);
        var f := FileSpec(files[n - 1]).value;
        var h' := CollectUpTo(files, n).value;
        assert h' == Harvest(h.records + f.records, h.days + [f.day], h.labels + f.labels);
        forall r | r in h'.records ensures r.day in h'.days && r.wavelength in h'.labels {
          if r in h.records {
            assert r.day in h.days && r.wavelength in h.labels;
          } else {
            assert r in f.records;
          }
        }
      }
    }
  }

  /** The returned days are ascending and are the collected days, one per export file with
      duplicates kept; the returned wavelengths are strictly ascending (so distinct) and
      are exactly the labels read from the blocks; every record's day and wavelength occur
      in the returned lists. */
  lemma DatasetOrdered(files: seq<ExportFile>)
    requires PlateFilesSpec(files).Ok?
    ensures var d := PlateFilesSpec(files).value;
      var h := CollectUpTo(files, |files|).value;
      Ascending(d.days) && multiset(d.days) == multiset(h.days) &&
      |d.days| == |ExportsUpTo(files, |files|)| &&
      StrictlyAscending(d.wavelengths) && Elements(d.wavelengths) == Elements(h.labels) &&
      (forall r :: r in d.records ==> r.day in d.days && r.wavelength in d.wavelengths)
  {
    var h := CollectUpTo(files, |files|).value;
    HarvestShape(files, |files|);
    SortIntsCorrect(h.days);
    SortDistinctCorrect(h.labels);
    var d := PlateFilesSpec(files).value;
    assert |d.days| == |multiset(d.days)| == |multiset(h.days)| == |h.days|;
    forall r | r in d.records ensures r.day in d.days && r.wavelength in d.wavelengths {
      assert r.day in multiset(h.days);
      assert r.wavelength in Elements(h.labels);
    }
  }

  /** Collecting depends only on the entries already walked. */
  lemma {:induction false} CollectPrefix(files: seq<ExportFile>, other: seq<ExportFile>, n: nat)
    requires n <= |files| && n <= |other| && files[..n] == other[..n]
    ensures CollectUpTo(files, n) == CollectUpTo(other, n)
  {
    if n > 0 {
      assert files[..n - 1] == other[..n - 1] by {
        assert files[..n - 1] == files[..n][..n - 1] && other[..n - 1] == other[..n][..n - 1];
      }
      CollectPrefix(files, other, n - 1);
      assert files[n - 1] == files[..n][n - 1] == other[..n][n - 1] == other[n - 1];
    }
  }

  /** Entries that are not exports have no effect: walking only the export files gives the
      same result as walking the whole listing. */
  lemma {:induction false} ExportsOnly(files: seq<ExportFile>, n: nat)
    requires n <= |files|
    ensures var exports := ExportsUpTo(files, n);
      CollectUpTo(files, n) == CollectUpTo(exports, |exports|)
  {
    if n > 0 {
      ExportsOnly(files, n - 1);
      var before := ExportsUpTo(files, n - 1);
      var file := files[n - 1];
      assert CollectUpTo(files, n) == AddEntry(CollectUpTo(files, n - 1), file);
      if IsExport(file.name) {
        var exports := before + [file];
        assert ExportsUpTo(files, n) == exports;
        assert exports[..|before|] == before[..|before|];
        CollectPrefix(exports, before, |before|);
        assert CollectUpTo(exports, |exports|) == AddEntry(CollectUpTo(exports, |before|), file);
      } else {
        assert ExportsUpTo(files, n) == before;
        SkipEntry(CollectUpTo(files, n - 1), file);
      }
    }
  }
}

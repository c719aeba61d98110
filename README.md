# plate_analyzer, modelled in Dafny

plate_analyzer reads the spreadsheet exports (`.xml`) of a 96-well plate reader. Each
export holds one plate read on one day at six wavelengths. The program turns the exports
into a long table of `[day, wavelength, well, absorbance]` records. It then draws one line
plot per wavelength. The plot shows only the wells whose absorbance varies by at least a
cutoff across the days. A second plotting function, `generate_plate_plots`, is meant to
draw one 8 × 12 heatmap per day and wavelength. Its call is commented out (line 187), so
the script never runs it. As written, it also stops with a KeyError after the first
(day, wavelength) pair (see "## Findings").

This project models the three parts of the script that compute something:

- `parse_plate_files` (modules `PyText`, `Sorting`, `Wells`, `PlateGrid`, `Blocks`,
  `PlateFiles`):
  - It reads the day from the file name.
  - It rebuilds the worksheet as a list of plate rows, placing each value by its row's
    `Index` attribute.
  - It cuts that list into the six ten-row wavelength blocks.
  - It makes one record per data cell, with `#SAT` replaced by 4.0.
  - It sorts the days and the distinct wavelength labels.
- The delta filter of `generate_line_plots` (modules `Readings`, `LinePlots`):
  - It groups one wavelength's absorbances by well.
  - It writes each well's max − min beside its rows.
  - It keeps the rows whose delta reaches the cutoff.
- The heatmap row builder of `generate_plate_plots` (module `Heatmaps`):
  - Two counters deal one (day, wavelength) selection into eight rows of twelve.
  - It loops over every day and every wavelength.

Every loop of these functions is a Dafny `method` with a `while` loop. Each method is proved
against a specification in one of three ways:
- Most are proved equal to a function that walks the same input prefix by prefix.
- `PlateGrid.MakeBlankPlate`, `Heatmaps.BuildHeatmap`, `Blocks.ReadDataRow` and
  `Heatmaps.PlatePlotsAsWritten` are proved equal to a closed form: the blank plate, the
  rows of clamped slices, the comprehension `RowRecords`, and `AsWrittenOutcome`.
- `LinePlots.SetDeltas`, `LinePlots.WriteDeltas` and `LinePlots.LinePlotSelections` state
  their result element by element.

The lemmas then state what the specification functions promise. A Python exception is an
`Err` of the `Outcome.Error` kind that Python would raise: IndexError, ValueError, KeyError
or AttributeError.

Notes on what the code does where a reader might expect otherwise (the model follows the
code):

- A short or missing plate row raises nothing. Python slices clamp, so a block cut from a
  short plate just has fewer rows. Only the wavelength cell `block[1][1]`, or a data row
  with more than twelve data cells, raises (`Blocks.TableBlockFails`).
- A file is read when `.xml` occurs anywhere in its name, not only at its end
  (`PlateFiles.IsExport`).
- The wavelength label is the text of `block[1][1]` up to the first space character. It is
  split on `" "` only, not on other white space (`Blocks.WavelengthLabel`).
- A value is stored as its cell text, or as 4.0 for `#SAT`. Conversion to a number happens
  later, in the plotting functions.
- A value's place in its plate row is its document order. The column `Index` attribute is
  parsed and then ignored (`PlateGrid.ColumnIndexIgnored`).
- The plate list has one entry per column element of the whole table, not per row
  (`PlateGrid.BuildPlate`). With n lists, a row `Index` v with −n < v ≤ 0 counts from the
  end of the list. A row `Index` v ≤ −n or v > n raises IndexError
  (`PlateGrid.CellTargetByRowIndex`).
- The day is `int()` of the second `_`-separated field of the name, up to its first `D`.
  Surrounding white space and a sign are accepted, as `int()` accepts them. An `_` in the
  day never reaches `int()`, because the name is split on `_` first: `exp_1_2D.xml` is
  read as day 1.
- Wavelength labels are sorted as strings, so "1000" comes before "450".
- A heatmap places values by arrival order, not by the well label
  (`Heatmaps.HeatmapPositions`, `Heatmaps.HeatmapWells`).

## Model

| member | source | states |
|---|---|---|
| PyText.ContainsIff | plate_analyzer.py:57 | the `in` test holds exactly when the pattern starts at some offset of the name |
| PyText.Split | plate_analyzer.py:59 | `split` yields at least one piece, and no piece contains the separator |
| PyText.JoinSplit | plate_analyzer.py:59 | joining the pieces of a split with the separator gives back the original text |
| PyText.SplitJoin | plate_analyzer.py:59 | splitting a join of separator-free pieces gives back the pieces |
| PyText.SplitNoSeparator | plate_analyzer.py:88 | text without the separator splits into itself alone |
| PyText.SplitAfterField | plate_analyzer.py:59 | a separator-free field followed by the separator is split off as the first piece |
| PyText.SplitFirstAfterPrefix | plate_analyzer.py:59 | separator-free text in front of `b` joins `b`'s first piece and leaves the other pieces alone |
| PyText.FirstFieldIsPrefix | plate_analyzer.py:88 | `split(sep)[0]` is the longest separator-free prefix of the text |
| PyText.ShowNat | plate_analyzer.py:94 | `str(n)` is a non-empty string of decimal digits |
| PyText.ParseShowNat | plate_analyzer.py:59 | `int(str(n)) == n` for every natural number |
| PyText.ShowNatInjective | plate_analyzer.py:94 | different numbers print differently |
| PyText.DropUnderscoresOfDigits | plate_analyzer.py:59 | plain digit strings pass `int()`'s underscore removal unchanged |
| PyText.DigitsValueOfShowNat | plate_analyzer.py:59 | the value of the digits of `str(n)` is `n` |
| PyText.BelowIrreflexive | plate_analyzer.py:102 | string `<` is irreflexive |
| PyText.BelowTransitive | plate_analyzer.py:102 | string `<` is transitive |
| PyText.BelowTotal | plate_analyzer.py:102 | any two different strings are ordered one way or the other |
| PyText.BelowAsymmetric | plate_analyzer.py:102 | string `<` is asymmetric |
| Sorting.InsertIntCounts | plate_analyzer.py:100 | inserting a day adds exactly that day to the multiset |
| Sorting.InsertIntAbove | plate_analyzer.py:100 | inserting a value that respects a lower bound keeps every element above the bound |
| Sorting.InsertIntKeepsOrder | plate_analyzer.py:100 | inserting into an ascending list keeps it ascending |
| Sorting.SortIntsCorrect | plate_analyzer.py:100 | `days_list.sort()` gives an ascending list with the same days, duplicates included |
| Sorting.AscendingUnique | plate_analyzer.py:100 | two ascending lists holding the same multiset are equal, so the sorted result is determined |
| Sorting.InsertDistinctElements | plate_analyzer.py:101-102 | inserting a label adds exactly that label to the set |
| Sorting.InsertDistinctKeepsOrder | plate_analyzer.py:101-102 | inserting into a strictly ascending list keeps it strictly ascending |
| Sorting.SortDistinctCorrect | plate_analyzer.py:101-102 | `sorted(set(labels))` is strictly ascending, so free of duplicates, and holds exactly the labels read |
| Sorting.StrictlyAscendingUnique | plate_analyzer.py:101-102 | two strictly ascending lists with the same elements are equal |
| Wells.LetterCode | plate_analyzer.py:46 | row letter `i` is the `i`-th letter from `A` |
| Wells.ParseWell | plate_analyzer.py:46-47 | a label that reads back gives a position inside the 8 × 12 plate |
| Wells.ParseWellLabel | plate_analyzer.py:94 | the label `letters[i] + str(numbers[j])` reads back as position (i, j) |
| Wells.WellLabelInjective | plate_analyzer.py:94 | the 96 positions get 96 different labels |
| PlateGrid.PyIndex | plate_analyzer.py:79 | `plate[k]` succeeds exactly for `-n <= k < n` and names `k` or `k + n` |
| PlateGrid.CellTarget | plate_analyzer.py:77-79 | a value that can be placed goes to a list inside the plate |
| PlateGrid.CellTargetByRowIndex | plate_analyzer.py:77-79 | row `Index` v goes to list v − 1 or counts from the end; outside `[-n, n)` it raises IndexError; the column `Index` does not matter |
| PlateGrid.MakeBlankPlate | plate_analyzer.py:66-71 | the blank plate has one empty list per column element of the table |
| PlateGrid.AppendColumn | plate_analyzer.py:76-79 | appending one column's values agrees with the fill specification, exceptions included |
| PlateGrid.AppendRow | plate_analyzer.py:75-79 | appending one row's columns agrees with the fill specification, exceptions included |
| PlateGrid.AppendRows | plate_analyzer.py:74-79 | walking the rows agrees with the fill specification, and the first exception ends the walk |
| PlateGrid.BuildPlate | plate_analyzer.py:66-79 | the plate built agrees with the fill specification and has one list per column element |
| PlateGrid.CellsErrorSticks | plate_analyzer.py:76-79 | an exception inside a column aborts the rest of that column |
| PlateGrid.ColumnsErrorSticks | plate_analyzer.py:75-79 | an exception inside a row aborts the rest of that row |
| PlateGrid.RowsErrorSticks | plate_analyzer.py:74-79 | an exception aborts the rest of the table |
| PlateGrid.CellsContents | plate_analyzer.py:76-79 | after `k` values of a column, only the target list has grown, by those values in order |
| PlateGrid.ColumnContents | plate_analyzer.py:76-79 | a column's values are appended, in order, to its target list only |
| PlateGrid.ColumnsContents | plate_analyzer.py:75-79 | each list gains, in order, the values of the row's columns that target it |
| PlateGrid.RowsContents | plate_analyzer.py:74-79 | each list gains, in document order, the values of the rows that target it |
| PlateGrid.FillContents | plate_analyzer.py:66-79 | list `t` of the filled plate holds exactly the values whose row `Index` names `t`, in document order |
| PlateGrid.ColumnsFail | plate_analyzer.py:75-79 | a row fails exactly when one of its columns with values has an unplaceable target |
| PlateGrid.CellsSucceed | plate_analyzer.py:76-79 | a column with a placeable target never fails |
| PlateGrid.RowsFail | plate_analyzer.py:74-79 | the first `i` rows fail exactly when one of their columns with values is unplaceable |
| PlateGrid.FillFails | plate_analyzer.py:66-79 | the fill raises exactly when some column with values has a missing or non-integer `Index`, or a row `Index` outside the plate |
| PlateGrid.SameColumnElements | plate_analyzer.py:69-71 | the plate size does not depend on the column `Index` attributes |
| PlateGrid.SameRowPlacement | plate_analyzer.py:74-79 | rows are placed the same way whatever the readable column `Index` attributes say |
| PlateGrid.SameColumnPlacement | plate_analyzer.py:75-79 | columns are placed the same way whatever their readable `Index` attributes say |
| PlateGrid.SameCellPlacement | plate_analyzer.py:76-79 | values are placed the same way whatever their column's readable `Index` says |
| PlateGrid.ColumnIndexIgnored | plate_analyzer.py:78-79 | changing readable column `Index` attributes never moves a value |
| Blocks.BlockTableLayout | plate_analyzer.py:49-54 | the six blocks are the adjacent ten-row ranges starting at row 52 |
| Blocks.Slice | plate_analyzer.py:87 | `plate[first:last]` clamps both ends to the list |
| Blocks.ReadDataRow | plate_analyzer.py:92-98 | one data row gives one record per data cell, with its well label, or IndexError past row H or column 12 |
| Blocks.ReadBlock | plate_analyzer.py:84-99 | reading a block agrees with the block specification, exceptions included |
| Blocks.DataErrorSticks | plate_analyzer.py:91-99 | an exception in a data row aborts the block |
| Blocks.SentinelReplaced | plate_analyzer.py:95-96 | exactly `#SAT` becomes 4.0; every other text, `None` included, is kept as read |
| Blocks.DataRecordsFail | plate_analyzer.py:91-99 | data rows fail exactly when one has cells and either no letter or more than twelve cells; the failure is an IndexError |
| Blocks.ShortBlockFails | plate_analyzer.py:87-99 | a block of at most ten rows fails exactly when its wavelength cell fails or a data row has more than twelve data cells |
| Blocks.TableBlockFails | plate_analyzer.py:83-99 | a table block fails exactly when its wavelength cell fails or a data row has more than twelve data cells |
| Blocks.FullDataRecords | plate_analyzer.py:91-99 | full data rows give twelve records per row in row-major order, record k at well (k / 12, k % 12) |
| Blocks.FullBlock | plate_analyzer.py:83-99 | a complete block gives 96 records, one per well, with pairwise distinct wells |
| Blocks.DataRecordsShape | plate_analyzer.py:91-99 | at most twelve records per data row, each carrying the day and wavelength |
| Blocks.TableBlockShape | plate_analyzer.py:83-99 | a table block gives at most 96 records, each carrying the file's day and the block's wavelength |
| PlateFiles.DayOfName | plate_analyzer.py:59 | a name `<prefix>_<n>D<rest>` with no `_` in the prefix is day n |
| PlateFiles.DayOfSample | plate_analyzer.py:59 | `sample_12D_rep1.xml` is day 12 |
| PlateFiles.DayOfWithoutUnderscore | plate_analyzer.py:59 | a name with no `_` raises IndexError |
| PlateFiles.ReadFile | plate_analyzer.py:59-99 | reading one export agrees with the file specification: day, plate, six blocks, exceptions included |
| PlateFiles.CollectEntry | plate_analyzer.py:57-99 | one directory entry extends the accumulators as the parse specification says: an export adds its day, records and labels, any other entry is skipped |
| PlateFiles.BlocksErrorSticks | plate_analyzer.py:83-99 | an exception in a block aborts the file |
| PlateFiles.BlocksShape | plate_analyzer.py:83-99 | n blocks give n labels and at most 96n records, each carrying the day and one of the labels |
| PlateFiles.FileShape | plate_analyzer.py:59-99 | a file gives exactly six labels and at most 576 records, each carrying the day and one of those labels |
| PlateFiles.ParsePlateFiles | plate_analyzer.py:44-104 | the walk over the listing agrees with the parse specification, exceptions included |
| PlateFiles.CollectErrorSticks | plate_analyzer.py:56-99 | an exception in one file aborts the whole parse |
| PlateFiles.SkipEntry | plate_analyzer.py:57 | an entry without `.xml` in its name leaves the accumulators unchanged |
| PlateFiles.ExportsMembers | plate_analyzer.py:56-57 | the files read are exactly the entries walked whose name contains `.xml` |
| PlateFiles.CollectFails | plate_analyzer.py:56-99 | the walk fails exactly when one export among the files walked fails |
| PlateFiles.ParseFails | plate_analyzer.py:44-104 | the parse raises exactly when some export in the listing raises |
| PlateFiles.HarvestShape | plate_analyzer.py:56-99 | one day per export, in listing order with duplicates, six labels and at most 576 records per export; every record's day and label are collected |
| PlateFiles.DatasetOrdered | plate_analyzer.py:100-104 | the days returned are ascending, one per export; the wavelengths are strictly ascending and exactly the labels read; every record's day and wavelength are listed |
| PlateFiles.CollectPrefix | plate_analyzer.py:56 | the accumulators depend only on the files already walked |
| PlateFiles.ExportsOnly | plate_analyzer.py:56-57 | names without `.xml` have no effect: walking only the exports gives the same result |
| Readings.OfWavelength | plate_analyzer.py:116 | the selection is no longer than the table and holds only the wavelength's rows |
| Readings.OnDay | plate_analyzer.py:153 | the selection is no longer than the table and holds only the day's rows |
| Readings.OfWavelengthMembers | plate_analyzer.py:116 | a reading is selected exactly when it is in the table and has the wavelength |
| Readings.OnDayMembers | plate_analyzer.py:153 | a reading is selected exactly when it is in the table and has the day |
| LinePlots.MinIsLeast | plate_analyzer.py:125 | `min` returns an element that no element is below |
| LinePlots.MaxIsGreatest | plate_analyzer.py:126 | `max` returns an element that no element is above |
| LinePlots.Group | plate_analyzer.py:119-123 | a well's list is non-empty exactly when the well has been seen |
| LinePlots.WellsUpTo | plate_analyzer.py:119-123 | the dictionary keys are exactly the wells seen, each once |
| LinePlots.GroupMembers | plate_analyzer.py:119-123 | a well's list holds exactly the absorbances of that well's rows |
| LinePlots.WellDelta | plate_analyzer.py:125-127 | a well's delta is never negative |
| LinePlots.DeltaSpan | plate_analyzer.py:125-127 | the delta is an actual largest minus an actual smallest absorbance of the well |
| LinePlots.GroupByWell | plate_analyzer.py:118-123 | the dictionary built maps each well seen to its group, with keys in insertion order |
| LinePlots.SetDeltas | plate_analyzer.py:128-130 | exactly the rows of one well get its delta; the others keep theirs |
| LinePlots.WriteDeltas | plate_analyzer.py:117-130 | every row ends with its own well's delta |
| LinePlots.KeepRows | plate_analyzer.py:133 | the rows kept are those whose delta reaches the cutoff, in table order |
| LinePlots.FilterByDelta | plate_analyzer.py:116-133 | the selection for one wavelength agrees with the filter specification |
| LinePlots.LinePlotSelections | plate_analyzer.py:115-133 | one filtered selection per wavelength, in the order of the wavelength list |
| LinePlots.KeptUpToMeaning | plate_analyzer.py:133 | a row is kept, with its well's delta, exactly when that delta reaches the cutoff |
| LinePlots.KeptMeaning | plate_analyzer.py:115-133 | the plotted rows are exactly the wavelength's readings whose well's max − min reaches the cutoff, each with that delta |
| LinePlots.WholeWells | plate_analyzer.py:124-133 | a well is kept or dropped as a whole |
| LinePlots.DeltaOfThreeDays | plate_analyzer.py:124-127 | a well read 0.1, 0.5 and 0.3 has delta 0.4 |
| LinePlots.TwoDayScenario | plate_analyzer.py:115-133 | with cutoff 0.2, a well going from 0.10 to 0.50 is plotted on both days with delta 0.40 |
| Heatmaps.PairValuesMembers | plate_analyzer.py:152-156 | the values dealt into one heatmap are exactly the absorbances of the readings taken on that day at that wavelength |
| Heatmaps.BuildHeatmap | plate_analyzer.py:151-160 | the counters deal the values into the rows the heatmap specification gives, or raise past 96 values |
| Heatmaps.HeatmapPositions | plate_analyzer.py:151-160 | at most 96 values fit; value k lands in row k / 12 at column k % 12, and every cell holds a value |
| Heatmaps.HeatmapWells | plate_analyzer.py:151-160 | 96 readings in row-major well order put each well's absorbance in its own row and column |
| Heatmaps.DayErrorSticks | plate_analyzer.py:150-160 | an exception at one wavelength aborts the day |
| Heatmaps.AllErrorSticks | plate_analyzer.py:149-160 | an exception on one day aborts the loops |
| Heatmaps.HeatmapsOfDay | plate_analyzer.py:150-160 | one day's heatmaps agree with the specification, one per wavelength |
| Heatmaps.PlatePlots | plate_analyzer.py:149-160 | the intended loops agree with the specification, one heatmap per (day, wavelength) pair |
| Heatmaps.DayHeatmapsSucceed | plate_analyzer.py:150-160 | a day succeeds exactly when every wavelength's selection has at most 96 values |
| Heatmaps.DayHeatmapsMeaning | plate_analyzer.py:150-160 | a day that succeeds gives one heatmap per wavelength, heatmap w being the grid of that wavelength's selection |
| Heatmaps.AllHeatmapsSucceed | plate_analyzer.py:149-160 | the loops succeed exactly when every (day, wavelength) selection has at most 96 values |
| Heatmaps.PairsOrder | plate_analyzer.py:149-150 | the loops visit n·m pairs, with day d and wavelength w in turn d·m + w |
| Heatmaps.AllHeatmapsOrder | plate_analyzer.py:149-160 | heatmap p is the grid of the p-th visited pair |
| Heatmaps.PlatePlotsAsWritten | plate_analyzer.py:149-161 | the loops as written agree with the as-written outcome |
| Heatmaps.RebindingLosesPairs | plate_analyzer.py:152-161 | with two or more pairs that all fit, the intended loops give every heatmap while the code as written raises KeyError |
| Heatmaps.TwoDaysOneWavelength | plate_analyzer.py:149-161 | days 1 and 3 at 450 nm: the code as written raises KeyError, the intended loops give two heatmaps |

## Left out

- Command-line parsing, `os.listdir` and the output directory (lines 1-38) are left out.
  The list of files and the cutoff become parameters.
- `ET.parse`, `getroot()` and `root[3][0]` (lines 63-64, 69, 74) are left out. Each export
  is given as its already-parsed worksheet table: rows with their `Index` attribute, and
  columns with their `Index` and value texts. A missing `root[3][0]` is not modelled.
- `pd.DataFrame`, `astype(float)` and the column renaming (lines 111-113, 145-147) are left
  out. The plotting functions take readings whose absorbance is already a real. Turning
  `None` into NaN, and the ValueError that non-numeric text raises, are not modelled.
- Floating point is modelled with exact reals. The rounding of `max − min` and of the
  cutoff comparison is not captured.
- LinePlots.FilterByDelta: the legend relabelling `key + " " + str(delta)[:5]` (line 131)
  is not modelled. The `Well` column keeps the bare label. Labels contain no space, so a
  relabelled row never matches a later key, and which rows are kept is unaffected.
- Printing, drawing, the legend and `savefig` (lines 134-140, 162-171) are left out. So is
  the overwriting of `Heatmap_<wavelength>.png` for each day.
- PyText.ParseInt: only the ASCII digits are accepted. The only white space accepted
  around them is six characters: space, tab, line feed, carriage return, vertical tab
  (`\x0b`) and form feed (`\x0c`). Python's `int()` also strips the separators
  `\x1c`–`\x1f` and other Unicode white space, and also accepts other Unicode digits.
- `wave_length_n` (line 84) and `collumn_n` (line 78) are computed and never used. The
  model evaluates `collumn_n` only for its exceptions.
- The heatmap selection's `iterrows` order is the table order. The model carries no pandas
  index.

## Findings

| source | as written | input that shows it | evidently intended | confidence | as-written member | corrected member |
|---|---|---|---|---|---|---|
| plate_analyzer.py:161 | `df = pd.DataFrame(new_list)` rebinds the name of the long table. The next (day, wavelength) pair then selects `df["Wave_length"]` from the 8 × 12 grid and raises KeyError (lines 152-153). | days `[1, 3]`, wavelengths `["450"]`, readings A1 = 0.10 on day 1 and 0.50 on day 3 | draw one heatmap per (day, wavelength) pair from the long table, with the grid under a separate name | not executed | Heatmaps.PlatePlotsAsWritten (Heatmaps.RebindingLosesPairs, Heatmaps.TwoDaysOneWavelength) | Heatmaps.PlatePlots |

/** The heatmap row builder of `generate_plate_plots` (plate_analyzer.py:144-161): for every
    day and wavelength, the matching absorbances are dealt into eight rows of twelve by a
    column counter `i` and a row counter `j`, in the order the rows of the table arrive.
    The drawing and saving of each heatmap (lines 162-171) are not modelled. */
module Heatmaps {
  import opened Outcome
  import opened Wells
  import opened Readings

  /** `new_list = [[],[],[],[],[],[],[],[]]`: the eight plate rows. */
  const GridRows: nat := 8

  /** Line 158: a row is full after twelve values. */
  const RowLength: nat := 12

  type Grid = seq<seq<real>>

  /** Lines 152-153: the absorbances of one day at one wavelength, in table order. */
  function PairValues(readings: seq<Reading>, day: int, wavelength: string): seq<real>
  {
    Absorbances(OnDay(OfWavelength(readings, wavelength), day))
  }

  /** The values of a (day, wavelength) pair are exactly the absorbances of the readings
      taken on that day at that wavelength. */
  lemma PairValuesMembers(readings: seq<Reading>, day: int, wavelength: string, x: real)
    ensures x in PairValues(readings, day, wavelength) <==>
      exists r :: r in readings && r.day == day && r.wavelength == wavelength && r.absorbance == x
  {
    var sel := OnDay(OfWavelength(readings, wavelength), day);
    OfWavelengthMembers(readings, wavelength);
    OnDayMembers(OfWavelength(readings, wavelength), day);
    var values := Absorbances(sel);
    if x in values {
      var k :| 0 <= k < |values| && values[k] == x;
      assert sel[k] in sel;
    }
    if exists r :: r in readings && r.day == day && r.wavelength == wavelength && r.absorbance == x {
      var r :| r in readings && r.day == day && r.wavelength == wavelength && r.absorbance == x;
      assert r in sel;
      var k :| 0 <= k < |sel| && sel[k] == r;
      assert values[k] == x;
    }
  }

  function Clamp(x: nat, n: nat): nat
  {
    if x < n then x else n
  }

  /** The rows the counters deal `values` into: row `q` holds values 12q to 12q + 11, as
      far as there are values; a 97th value has no row left. */
  function HeatmapRows(values: seq<real>): Result<Grid>
  {
    if |values| > GridRows * RowLength then Err(IndexOutOfRange)
    else Ok(seq(GridRows, q requires 0 <= q < GridRows =>
              values[Clamp(RowLength * q, |values|)..Clamp(RowLength * q + RowLength, |values|)]))
  }

  /** Lines 151-160: appends value `k` to `new_list[j]`, moving `j` to the next row each time
      `i` reaches twelve. */
  method BuildHeatmap(values: seq<real>) returns (r: Result<Grid>)
    ensures r == HeatmapRows(values)
  {
    var grid: Grid := [[], [], [], [], [], [], [], []];
    var i, j := 0, 0;
    var k := 0;
    while k < |values|
      invariant 0 <= k <= |values| && k <= 96
      invariant 0 <= i < 12 && k == 12 * j + i
      invariant |grid| == 8
      invariant forall q :: 0 <= q < 8 ==> grid[q] == values[Clamp(12 * q, k)..Clamp(12 * q + 12, k)]
    {
      if j >= |grid| {
        return Err(IndexOutOfRange);
      }
      grid := grid[j := grid[j] + [values[k]]];
      forall q | 0 <= q < 8
        ensures grid[q] == values[Clamp(12 * q, k + 1)..Clamp(12 * q + 12, k + 1)]
      {
        if q == j {
          assert values[12 * j..k] + [values[k]] == values[12 * j..k + 1];
        }
      }
      i := i + 1;
      if i == 12 {
        i := 0;
        j := j + 1;
      }
      k := k + 1;
    }
    assert grid == seq(GridRows, q requires 0 <= q < GridRows =>
      values[Clamp(RowLength * q, |values|)..Clamp(RowLength * q + RowLength, |values|)]);
    r := Ok(grid);
  }

  // ---------------------------------------------------------------- where each value lands

  /** At most 96 values fit. Value `k` lands in row k / 12 at column k % 12, and every cell
      of the heatmap holds the value of that position: no value is lost or repeated. */
  lemma HeatmapPositions(values: seq<real>)
    ensures HeatmapRows(values).Ok? <==> |values| <= 96
    ensures HeatmapRows(values).Ok? ==>
      var grid := HeatmapRows(values).value;
      |grid| == 8 &&
      (forall k :: 0 <= k < |values| ==> k % 12 < |grid[k / 12]| && grid[k / 12][k % 12] == values[k]) &&
      (forall q, c :: 0 <= q < 8 && 0 <= c < |grid[q]| ==> 12 * q + c < |values| && grid[q][c] == values[12 * q + c])
  {
    if |values| <= 96 {
      var grid := HeatmapRows(values).value;
      forall k | 0 <= k < |values|
        ensures k % 12 < |grid[k / 12]| && grid[k / 12][k % 12] == values[k]
      {
        var q := k / 12;
        assert k == 12 * q + k % 12;
        assert grid[q] == values[12 * q..Clamp(12 * q + 12, |values|)];
      }
    }
  }

  /** When the 96 readings arrive in row-major well order (as a complete block yields
      them), the cell in row `i` and column `j` holds the absorbance of well
      `letters[i] + str(j + 1)`. */
  lemma HeatmapWells(sel: seq<Reading>)
    requires |sel| == 96
    requires forall k :: 0 <= k < 96 ==> sel[k].well == WellLabel(k / 12, k % 12)
    ensures HeatmapRows(Absorbances(sel)).Ok?
    ensures forall i, j, k :: 0 <= i < 8 && 0 <= j < 12 && 0 <= k < 96 && sel[k].well == WellLabel(i, j) ==>
      HeatmapRows(Absorbances(sel)).value[i][j] == sel[k].absorbance
  {
    var values := Absorbances(sel);
    HeatmapPositions(values);
    var grid := HeatmapRows(values).value;
    forall i, j, k | 0 <= i < 8 && 0 <= j < 12 && 0 <= k < 96 && sel[k].well == WellLabel(i, j)
      ensures grid[i][j] == sel[k].absorbance
    {
      WellLabelInjective(k / 12, k % 12, i, j);
      assert k == 12 * i + j;
    }
  }

  // ---------------------------------------------------------------- the loops over days and wavelengths

  /** The heatmaps of one day for the first `n` wavelengths. */
  function DayHeatmaps(readings: seq<Reading>, day: int, wavelengths: seq<string>, n: nat): Result<seq<Grid>>
    requires n <= |wavelengths|
  {
    if n == 0 then Ok([])
    else
      match DayHeatmaps(readings, day, wavelengths, n - 1)
      case Err(e) => Err(e)
      case Ok(gs) =>
        match HeatmapRows(PairValues(readings, day, wavelengths[n - 1]))
        case Err(e) => Err(e)
        case Ok(g) => Ok(gs + [g])
  }

  /** The heatmaps of the first `n` days, each day for every wavelength. */
  function AllHeatmaps(readings: seq<Reading>, days: seq<int>, wavelengths: seq<string>, n: nat): Result<seq<Grid>>
    requires n <= |days|
  {
    if n == 0 then Ok([])
    else
      match AllHeatmaps(readings, days, wavelengths, n - 1)
      case Err(e) => Err(e)
      case Ok(gs) =>
        match DayHeatmaps(readings, days[n - 1], wavelengths, |wavelengths|)
        case Err(e) => Err(e)
        case Ok(hs) => Ok(gs + hs)
  }

  lemma {:induction false} DayErrorSticks(readings: seq<Reading>, day: int, wavelengths: seq<string>, n: nat, m: nat, e: Error)
    requires n <= m <= |wavelengths|
    requires DayHeatmaps(readings, day, wavelengths, n) == Err(e)
    ensures DayHeatmaps(readings, day, wavelengths, m) == Err(e)
    decreases m
  {
    if m > n { DayErrorSticks(readings, day, wavelengths, n, m - 1, e); }
  }

  lemma {:induction false} AllErrorSticks(readings: seq<Reading>, days: seq<int>, wavelengths: seq<string>, n: nat, m: nat, e: Error)
    requires n <= m <= |days|
    requires AllHeatmaps(readings, days, wavelengths, n) == Err(e)
    ensures AllHeatmaps(readings, days, wavelengths, m) == Err(e)
    decreases m
  {
    if m > n { AllErrorSticks(readings, days, wavelengths, n, m - 1, e); }
  }

  /** Line 150 for one day, with the table left intact. */
  method HeatmapsOfDay(readings: seq<Reading>, day: int, wavelengths: seq<string>) returns (r: Result<seq<Grid>>)
    ensures r == DayHeatmaps(readings, day, wavelengths, |wavelengths|)
  {
    var maps: seq<Grid> := [];
    var w := 0;
    while w < |wavelengths|
      invariant 0 <= w <= |wavelengths|
      invariant DayHeatmaps(readings, day, wavelengths, w) == Ok(maps)
    {
      var grid := BuildHeatmap(PairValues(readings, day, wavelengths[w]));
      if grid.Err? {
        DayErrorSticks(readings, day, wavelengths, w + 1, |wavelengths|, grid.error);
        return Err(grid.error);
      }
      maps := maps + [grid.value];
      w := w + 1;
    }
    r := Ok(maps);
  }

  /** Lines 149-160 as evidently intended: one heatmap per (day, wavelength) pair, every
      one of them selected from the full table. */
  method PlatePlots(readings: seq<Reading>, days: seq<int>, wavelengths: seq<string>) returns (r: Result<seq<Grid>>)
    ensures r == AllHeatmaps(readings, days, wavelengths, |days|)
  {
    var maps: seq<Grid> := [];
    var d := 0;
    while d < |days|
      invariant 0 <= d <= |days|
      invariant AllHeatmaps(readings, days, wavelengths, d) == Ok(maps)
    {
      var dayMaps := HeatmapsOfDay(readings, days[d], wavelengths);
      if dayMaps.Err? {
        AllErrorSticks(readings, days, wavelengths, d + 1, |days|, dayMaps.error);
        return Err(dayMaps.error);
      }
      maps := maps + dayMaps.value;
      d := d + 1;
    }
    r := Ok(maps);
  }

  /** The values of one (day, wavelength) pair fit in the eight rows. */
  predicate Fits(readings: seq<Reading>, day: int, wavelength: string)
  {
    |PairValues(readings, day, wavelength)| <= GridRows * RowLength
  }

  /** A day succeeds exactly when every wavelength's selection fits. */
  lemma {:induction false} DayHeatmapsSucceed(readings: seq<Reading>, day: int, wavelengths: seq<string>, n: nat)
    requires n <= |wavelengths|
    ensures DayHeatmaps(readings, day, wavelengths, n).Ok? <==>
      forall w :: 0 <= w < n ==> Fits(readings, day, wavelengths[w])
  {
    if n > 0 {
      DayHeatmapsSucceed(readings, day, wavelengths, n - 1);
    }
  }

  /** A day that succeeds gives one heatmap per wavelength, heatmap `w` being the grid of
      that wavelength's selection. */
  lemma {:induction false} DayHeatmapsMeaning(readings: seq<Reading>, day: int, wavelengths: seq<string>, n: nat)
    requires n <= |wavelengths|
    requires DayHeatmaps(readings, day, wavelengths, n).Ok?
    ensures var hs := DayHeatmaps(readings, day, wavelengths, n).value;
      |hs| == n &&
      forall w :: 0 <= w < n ==> HeatmapRows(PairValues(readings, day, wavelengths[w])) == Ok(hs[w])
  {
    if n > 0 {
      DayHeatmapsMeaning(readings, day, wavelengths, n - 1);
    }
  }

  lemma ProductIndex(d: nat, w: nat, m: nat, n: nat)
    requires d < n && w < m
    ensures d * m + w < n * m
  {
    assert d * m + w < d * m + m == (d + 1) * m;
    assert (d + 1) * m <= n * m;
  }

  /** Every pair gets its heatmap unless some pair has more than 96 values; then the
      first such pair's index failure ends the run. */
  lemma {:induction false} AllHeatmapsSucceed(readings: seq<Reading>, days: seq<int>, wavelengths: seq<string>, n: nat)
    requires n <= |days|
    ensures AllHeatmaps(readings, days, wavelengths, n).Ok? <==>
      forall d, w :: 0 <= d < n && 0 <= w < |wavelengths| ==> Fits(readings, days[d], wavelengths[w])
  {
    if n > 0 {
      AllHeatmapsSucceed(readings, days, wavelengths, n - 1);
      DayHeatmapsSucceed(readings, days[n - 1], wavelengths, |wavelengths|);
    }
  }

  /** The (day, wavelength) pairs of the two loops over the first `n` days, in the order
      they are visited. */
  function PairsUpTo(days: seq<int>, wavelengths: seq<string>, n: nat): seq<(int, string)>
    requires n <= |days|
  {
    if n == 0 then []
    else
      var row := seq(|wavelengths|, w requires 0 <= w < |wavelengths| => (days[n - 1], wavelengths[w]));
      PairsUpTo(days, wavelengths, n - 1) + row
  }

  /** The turn in which day `d` and wavelength `w` are visited, `m` wavelengths a day. */
  function Turn(d: nat, w: nat, m: nat): nat
  {
    d * m + w
  }

  /** Day `d` and wavelength `w` are visited in turn d * |wavelengths| + w. */
  lemma {:induction false} PairsOrder(days: seq<int>, wavelengths: seq<string>, n: nat)
    requires n <= |days|
    ensures |PairsUpTo(days, wavelengths, n)| == n * |wavelengths|
    ensures forall d, w :: 0 <= d < n && 0 <= w < |wavelengths| ==>
      Turn(d, w, |wavelengths|) < n * |wavelengths| &&
      PairsUpTo(days, wavelengths, n)[Turn(d, w, |wavelengths|)] == (days[d], wavelengths[w])
  {
    if n > 0 {
      var m := |wavelengths|;
      PairsOrder(days, wavelengths, n - 1);
      var before := PairsUpTo(days, wavelengths, n - 1);
      var ps := PairsUpTo(days, wavelengths, n);
      assert |ps| == n * m by {
        assert |ps| == (n - 1) * m + m;
      }
      forall d, w | 0 <= d < n && 0 <= w < m
        ensures Turn(d, w, m) < n * m && ps[Turn(d, w, m)] == (days[d], wavelengths[w])
      {
        ProductIndex(d, w, m, n);
        if d < n - 1 {
          ProductIndex(d, w, m, n - 1);
          assert ps[Turn(d, w, m)] == before[Turn(d, w, m)];
        } else {
          assert Turn(d, w, m) == |before| + w;
        }
      }
    }
  }

  /** The heatmaps are those of the visited pairs, one per pair, in the order visited. */
  lemma {:induction false} AllHeatmapsOrder(readings: seq<Reading>, days: seq<int>, wavelengths: seq<string>, n: nat)
    requires n <= |days|
    requires AllHeatmaps(readings, days, wavelengths, n).Ok?
    ensures var gs := AllHeatmaps(readings, days, wavelengths, n).value;
      var ps := PairsUpTo(days, wavelengths, n);
      |gs| == |ps| &&
      forall p :: 0 <= p < |gs| ==> HeatmapRows(PairValues(readings, ps[p].0, ps[p].1)) == Ok(gs[p])
  {
    if n > 0 {
      var m := |wavelengths|;
      AllHeatmapsOrder(readings, days, wavelengths, n - 1);
      DayHeatmapsMeaning(readings, days[n - 1], wavelengths, m);
      var before := AllHeatmaps(readings, days, wavelengths, n - 1).value;
      var hs := DayHeatmaps(readings, days[n - 1], wavelengths, m).value;
      var gs := AllHeatmaps(readings, days, wavelengths, n).value;
      var ps := PairsUpTo(days, wavelengths, n);
      assert gs == before + hs;
      forall p | 0 <= p < |gs|
        ensures HeatmapRows(PairValues(readings, ps[p].0, ps[p].1)) == Ok(gs[p])
      {
        if p >= |before| {
          var w := p - |before|;
          assert ps[p] == (days[n - 1], wavelengths[w]);
          assert Fits(readings, days[n - 1], wavelengths[w]);
        }
      }
    }
  }

  // ---------------------------------------------------------------- the loops as written

  /** What the name `df` refers to: the long table of readings, or, once line 161 has
      rebound it, the wide frame of one heatmap, which has no `Wave_length` column. */
  datatype Frame = Long(readings: seq<Reading>) | Wide(grid: Grid)

  /** Where the loops of lines 149-161 end as written: the first pair is drawn, and the
      next pair, if any, looks up `Wave_length` in the heatmap frame and fails. */
  function AsWrittenOutcome(readings: seq<Reading>, days: seq<int>, wavelengths: seq<string>): Result<seq<Grid>>
  {
    if |days| == 0 || |wavelengths| == 0 then Ok([])
    else
      match HeatmapRows(PairValues(readings, days[0], wavelengths[0]))
      case Err(e) => Err(e)
      case Ok(g) => if |days| == 1 && |wavelengths| == 1 then Ok([g]) else Err(MissingAttribute)
  }

  /** Lines 149-161 as written, `df = pd.DataFrame(new_list)` included. */
  method PlatePlotsAsWritten(readings: seq<Reading>, days: seq<int>, wavelengths: seq<string>)
    returns (r: Result<seq<Grid>>)
    ensures r == AsWrittenOutcome(readings, days, wavelengths)
  {
    var df := Long(readings);
    var maps: seq<Grid> := [];
    var d := 0;
    while d < |days|
      invariant 0 <= d <= |days|
      invariant d == 0 || |wavelengths| == 0 ==> df == Long(readings) && maps == []
      invariant d > 0 && |wavelengths| > 0 ==>
        d == 1 && |wavelengths| == 1 &&
        HeatmapRows(PairValues(readings, days[0], wavelengths[0])).Ok? &&
        df == Wide(HeatmapRows(PairValues(readings, days[0], wavelengths[0])).value) &&
        maps == [df.grid]
    {
      var w := 0;
      while w < |wavelengths|
        invariant 0 <= w <= |wavelengths|
        invariant (d == 0 && w == 0) || |wavelengths| == 0 ==> df == Long(readings) && maps == []
        invariant d == 0 ==> w <= 1
        invariant d > 0 && |wavelengths| > 0 ==> d == 1 && w == 0 && |wavelengths| == 1
        invariant (d > 0 && |wavelengths| > 0) || w > 0 ==>
          HeatmapRows(PairValues(readings, days[0], wavelengths[0])).Ok? &&
          df == Wide(HeatmapRows(PairValues(readings, days[0], wavelengths[0])).value) &&
          maps == [df.grid]
      {
        if df.Wide? {
          return Err(MissingAttribute);
        }
        var grid := BuildHeatmap(PairValues(df.readings, days[d], wavelengths[w]));
        if grid.Err? {
          return Err(grid.error);
        }
        df := Wide(grid.value);
        maps := maps + [grid.value];
        w := w + 1;
      }
      d := d + 1;
    }
    r := Ok(maps);
  }

  /** The rebinding costs every pair after the first: with two or more pairs that all fit,
      the intended loops return a heatmap for each pair, while the loops as written stop
      at the second pair. */
  lemma RebindingLosesPairs(readings: seq<Reading>, days: seq<int>, wavelengths: seq<string>)
    requires |days| * |wavelengths| >= 2
    requires forall d, w :: 0 <= d < |days| && 0 <= w < |wavelengths| ==> Fits(readings, days[d], wavelengths[w])
    ensures AllHeatmaps(readings, days, wavelengths, |days|).Ok?
    ensures |AllHeatmaps(readings, days, wavelengths, |days|).value| == |days| * |wavelengths|
    ensures AsWrittenOutcome(readings, days, wavelengths) == Err(MissingAttribute)
  {
    AllHeatmapsSucceed(readings, days, wavelengths, |days|);
    AllHeatmapsOrder(readings, days, wavelengths, |days|);
    PairsOrder(days, wavelengths, |days|);
    assert |days| > 0 && |wavelengths| > 0;
    assert Fits(readings, days[0], wavelengths[0]);
  }

  /** Two days at one wavelength: `exp_1D_a.xml` and `exp_3D_a.xml` with well A1 at 450 nm. */
  lemma TwoDaysOneWavelength()
    ensures var readings := [Reading(1, "450", "A1", 0.10), Reading(3, "450", "A1", 0.50)];
      AsWrittenOutcome(readings, [1, 3], ["450"]) == Err(MissingAttribute) &&
      AllHeatmaps(readings, [1, 3], ["450"], 2).Ok? &&
      |AllHeatmaps(readings, [1, 3], ["450"], 2).value| == 2
  {
    var readings := [Reading(1, "450", "A1", 0.10), Reading(3, "450", "A1", 0.50)];
    forall d, w | 0 <= d < 2 && 0 <= w < 1 ensures Fits(readings, [1, 3][d], ["450"][w]) {
      assert |OfWavelength(readings, "450")| <= 2;
    }
    RebindingLosesPairs(readings, [1, 3], ["450"]);
  }
}

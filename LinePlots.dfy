/** The per-well delta filter of `generate_line_plots` (plate_analyzer.py:115-133): for one
    wavelength, group the absorbances by well, give every reading of a well that well's
    spread (largest minus smallest absorbance), and keep the readings whose spread reaches
    the cutoff. Absorbances are exact reals; the relabelling of the `Well` column for the
    legend (line 131) and the drawing are not modelled. */
module LinePlots {
  import opened Outcome
  import opened Readings

  /** A row of `new_df` after line 130: the reading and the `Delta` written beside it. */
  datatype Plotted = Plotted(reading: Reading, delta: real)

  /** Python's `min` on a non-empty list. */
  function Min(s: seq<real>): real
    requires |s| > 0
  {
    if |s| == 1 then s[0]
    else
      var rest := Min(s[..|s| - 1]);
      if s[|s| - 1] < rest then s[|s| - 1] else rest
  }

  /** Python's `max` on a non-empty list. */
  function Max(s: seq<real>): real
    requires |s| > 0
  {
    if |s| == 1 then s[0]
    else
      var rest := Max(s[..|s| - 1]);
      if rest < s[|s| - 1] then s[|s| - 1] else rest
  }

  /** `min` returns an element of the list that no element is below. */
  lemma {:induction false} MinIsLeast(s: seq<real>)
    requires |s| > 0
    ensures Min(s) in s
    ensures forall k :: 0 <= k < |s| ==> Min(s) <= s[k]
  {
    if |s| > 1 {
      MinIsLeast(s[..|s| - 1]);
    }
  }

  /** `max` returns an element of the list that no element is above. */
  lemma {:induction false} MaxIsGreatest(s: seq<real>)
    requires |s| > 0
    ensures Max(s) in s
    ensures forall k :: 0 <= k < |s| ==> s[k] <= Max(s)
  {
    if |s| > 1 {
      MaxIsGreatest(s[..|s| - 1]);
    }
  }

  /** Well `w` is the well of one of the first `n` rows of the selection. */
  predicate Occurs(sel: seq<Reading>, w: string, n: nat)
    requires n <= |sel|
  {
    exists k :: 0 <= k < n && sel[k].well == w
  }

  /** `well_dict[w]` after the first `n` rows of the selection: the absorbances of well `w`
      in row order, a list that exists once the well has been seen. */
  function Group(sel: seq<Reading>, w: string, n: nat): (g: seq<real>)
    requires n <= |sel|
    ensures |g| > 0 <==> Occurs(sel, w, n)
  {
    if n == 0 then []
    else if sel[n - 1].well == w then Group(sel, w, n - 1) + [sel[n - 1].absorbance]
    else Group(sel, w, n - 1)
  }

  /** The keys of `well_dict` after the first `n` rows, in insertion order: every well seen
      so far, each once. */
  function WellsUpTo(sel: seq<Reading>, n: nat): (ws: seq<string>)
    requires n <= |sel|
    ensures forall w :: w in ws <==> Occurs(sel, w, n)
    ensures forall a, b :: 0 <= a < b < |ws| ==> ws[a] != ws[b]
  {
    if n == 0 then []
    else if sel[n - 1].well in WellsUpTo(sel, n - 1) then WellsUpTo(sel, n - 1)
    else WellsUpTo(sel, n - 1) + [sel[n - 1].well]
  }

  /** The values in a well's list are the absorbances of that well's rows. */
  lemma {:induction false} GroupMembers(sel: seq<Reading>, w: string, n: nat, x: real)
    requires n <= |sel|
    ensures x in Group(sel, w, n) <==> exists k :: 0 <= k < n && sel[k].well == w && sel[k].absorbance == x
  {
    if n > 0 {
      GroupMembers(sel, w, n - 1, x);
    }
  }

  /** Lines 125-127: the spread of a well's absorbances, which is never negative. */
  function WellDelta(sel: seq<Reading>, w: string): (d: real)
    requires Occurs(sel, w, |sel|)
    ensures d >= 0.0
  {
    var g := Group(sel, w, |sel|);
    MinIsLeast(g);
    MaxIsGreatest(g);
    Max(g) - Min(g)
  }

  /** The delta written beside row `k`. */
  function RowDelta(sel: seq<Reading>, k: nat): real
    requires k < |sel|
  {
    assert Occurs(sel, sel[k].well, |sel|);
    WellDelta(sel, sel[k].well)
  }

  /** Rows `lo` and `hi` of well `w` hold its smallest and largest absorbance. */
  predicate Spans(sel: seq<Reading>, w: string, lo: int, hi: int)
  {
    0 <= lo < |sel| && 0 <= hi < |sel| && sel[lo].well == w && sel[hi].well == w &&
    forall k :: 0 <= k < |sel| && sel[k].well == w ==>
      sel[lo].absorbance <= sel[k].absorbance <= sel[hi].absorbance
  }

  /** The delta is the difference between an actual largest and an actual smallest
      absorbance of the well, and every reading of the well lies between the two. */
  lemma DeltaSpan(sel: seq<Reading>, w: string)
    requires Occurs(sel, w, |sel|)
    ensures exists lo, hi ::
      (Spans(sel, w, lo, hi) && WellDelta(sel, w) == sel[hi].absorbance - sel[lo].absorbance)
  {
    var g := Group(sel, w, |sel|);
    MinIsLeast(g);
    MaxIsGreatest(g);
    GroupMembers(sel, w, |sel|, Min(g));
    GroupMembers(sel, w, |sel|, Max(g));
    var lo :| 0 <= lo < |sel| && sel[lo].well == w && sel[lo].absorbance == Min(g);
    var hi :| 0 <= hi < |sel| && sel[hi].well == w && sel[hi].absorbance == Max(g);
    forall k | 0 <= k < |sel| && sel[k].well == w
      ensures sel[lo].absorbance <= sel[k].absorbance <= sel[hi].absorbance
    {
      GroupMembers(sel, w, |sel|, sel[k].absorbance);
      var m :| 0 <= m < |g| && g[m] == sel[k].absorbance;
    }
    assert Spans(sel, w, lo, hi);
  }

  /** Line 133 over the first `n` rows: the rows whose well's delta reaches the cutoff. */
  function KeptUpTo(sel: seq<Reading>, cutoff: real, n: nat): seq<Plotted>
    requires n <= |sel|
  {
    if n == 0 then []
    else if RowDelta(sel, n - 1) >= cutoff then
      KeptUpTo(sel, cutoff, n - 1) + [Plotted(sel[n - 1], RowDelta(sel, n - 1))]
    else KeptUpTo(sel, cutoff, n - 1)
  }

  /** The rows of `new_df` that line 133 keeps for one wavelength. */
  function Kept(readings: seq<Reading>, wavelength: string, cutoff: real): seq<Plotted>
  {
    var sel := OfWavelength(readings, wavelength);
    KeptUpTo(sel, cutoff, |sel|)
  }

  /** Lines 119-123: `well_dict`, grown row by row, and its keys in insertion order. */
  method GroupByWell(sel: seq<Reading>) returns (groups: map<string, seq<real>>, keys: seq<string>)
    ensures keys == WellsUpTo(sel, |sel|)
    ensures forall w :: w in groups <==> w in keys
    ensures forall w :: w in groups ==> groups[w] == Group(sel, w, |sel|)
  {
    groups := map[];
    keys := [];
    var t := 0;
    while t < |sel|
      invariant 0 <= t <= |sel|
      invariant keys == WellsUpTo(sel, t)
      invariant forall w :: w in groups <==> w in keys
      invariant forall w :: w in groups ==> groups[w] == Group(sel, w, t)
    {
      var w := sel[t].well;
      if w !in groups {
        groups := groups[w := [sel[t].absorbance]];
        keys := keys + [w];
      } else {
        groups := groups[w := groups[w] + [sel[t].absorbance]];
      }
      t := t + 1;
    }
  }

  /** Lines 128-130: every row of well `key` gets `Delta = delta`; the other rows keep
      what they had. */
  method SetDeltas(sel: seq<Reading>, deltas: seq<Option<real>>, key: string, delta: real)
    returns (updated: seq<Option<real>>)
    requires |deltas| == |sel|
    ensures |updated| == |sel|
    ensures forall k :: 0 <= k < |sel| ==>
      updated[k] == if sel[k].well == key then Some(delta) else deltas[k]
  {
    updated := deltas;
    var k := 0;
    while k < |sel|
      invariant 0 <= k <= |sel| && |updated| == |sel|
      invariant forall k' :: 0 <= k' < |sel| ==>
        updated[k'] == if k' < k && sel[k'].well == key then Some(delta) else deltas[k']
    {
      if sel[k].well == key {
        updated := updated[k := Some(delta)];
      }
      k := k + 1;
    }
  }

  /** Lines 117 and 124-131: the `Delta` column starts empty and every key of `well_dict`
      writes its spread beside its rows, so every row ends up with its well's delta. */
  method WriteDeltas(sel: seq<Reading>, groups: map<string, seq<real>>, keys: seq<string>)
    returns (deltas: seq<Option<real>>)
    requires keys == WellsUpTo(sel, |sel|)
    requires forall w :: w in groups <==> w in keys
    requires forall w :: w in groups ==> groups[w] == Group(sel, w, |sel|)
    ensures |deltas| == |sel|
    ensures forall k :: 0 <= k < |sel| ==> deltas[k] == Some(RowDelta(sel, k))
  {
    deltas := seq(|sel|, _ => None);
    var q := 0;
    while q < |keys|
      invariant 0 <= q <= |keys| && |deltas| == |sel|
      invariant forall k :: 0 <= k < |sel| ==>
        deltas[k] == if sel[k].well in keys[..q] then Some(RowDelta(sel, k)) else None
    {
      var key := keys[q];
      var value := groups[key];
      var delta := Max(value) - Min(value);
      assert delta == WellDelta(sel, key);
      deltas := SetDeltas(sel, deltas, key, delta);
      assert keys[..q + 1] == keys[..q] + [key];
      q := q + 1;
    }
    assert keys[..q] == keys;
    forall k | 0 <= k < |sel| ensures sel[k].well in keys {
      assert Occurs(sel, sel[k].well, |sel|);
    }
  }

  /** Line 133: the rows whose delta is at least the cutoff, in table order. */
  method KeepRows(sel: seq<Reading>, deltas: seq<Option<real>>, cutoff: real) returns (kept: seq<Plotted>)
    requires |deltas| == |sel|
    requires forall k :: 0 <= k < |sel| ==> deltas[k] == Some(RowDelta(sel, k))
    ensures kept == KeptUpTo(sel, cutoff, |sel|)
  {
    kept := [];
    var k := 0;
    while k < |sel|
      invariant 0 <= k <= |sel|
      invariant kept == KeptUpTo(sel, cutoff, k)
    {
      var delta := deltas[k].value;
      if delta >= cutoff {
        kept := kept + [Plotted(sel[k], delta)];
      }
      k := k + 1;
    }
  }

  /** Lines 116-133 for one wavelength: select its rows, group their absorbances, write each
      well's delta beside its rows, and keep the rows whose delta reaches the cutoff. */
  method FilterByDelta(readings: seq<Reading>, wavelength: string, cutoff: real)
    returns (kept: seq<Plotted>)
    ensures kept == Kept(readings, wavelength, cutoff)
  {
    var sel := OfWavelength(readings, wavelength);
    var groups, keys := GroupByWell(sel);
    var deltas := WriteDeltas(sel, groups, keys);
    kept := KeepRows(sel, deltas, cutoff);
  }

  /** Line 115: one selection per wavelength, in the order of `wave_lengths_list`. */
  method LinePlotSelections(readings: seq<Reading>, wavelengths: seq<string>, cutoff: real)
    returns (plots: seq<seq<Plotted>>)
    ensures |plots| == |wavelengths|
    ensures forall k :: 0 <= k < |wavelengths| ==> plots[k] == Kept(readings, wavelengths[k], cutoff)
  {
    plots := [];
    var k := 0;
    while k < |wavelengths|
      invariant 0 <= k <= |wavelengths| && |plots| == k
      invariant forall k' :: 0 <= k' < k ==> plots[k'] == Kept(readings, wavelengths[k'], cutoff)
    {
      var kept := FilterByDelta(readings, wavelengths[k], cutoff);
      plots := plots + [kept];
      k := k + 1;
    }
  }

  // ---------------------------------------------------------------- what the filter keeps

  /** Over the first `n` rows, a row is kept, carrying its well's delta, exactly when that
      delta reaches the cutoff. */
  lemma {:induction false} KeptUpToMeaning(sel: seq<Reading>, cutoff: real, n: nat)
    requires n <= |sel|
    ensures forall p :: p in KeptUpTo(sel, cutoff, n) ==>
      exists k :: 0 <= k < n && p == Plotted(sel[k], RowDelta(sel, k)) && RowDelta(sel, k) >= cutoff
    ensures forall k :: 0 <= k < n && RowDelta(sel, k) >= cutoff ==>
      Plotted(sel[k], RowDelta(sel, k)) in KeptUpTo(sel, cutoff, n)
  {
    if n > 0 {
      KeptUpToMeaning(sel, cutoff, n - 1);
      var before := KeptUpTo(sel, cutoff, n - 1);
      forall p | p in KeptUpTo(sel, cutoff, n)
        ensures exists k :: 0 <= k < n && p == Plotted(sel[k], RowDelta(sel, k)) && RowDelta(sel, k) >= cutoff
      {
        if p !in before {
          assert p == Plotted(sel[n - 1], RowDelta(sel, n - 1));
        }
      }
    }
  }

  /** The kept rows are exactly the rows of the wavelength whose well's delta is at least
      the cutoff, each carrying that delta. */
  lemma KeptMeaning(readings: seq<Reading>, wavelength: string, cutoff: real)
    ensures var sel := OfWavelength(readings, wavelength);
      (forall p :: p in Kept(readings, wavelength, cutoff) ==>
        p.reading in readings && p.reading.wavelength == wavelength &&
        Occurs(sel, p.reading.well, |sel|) &&
        p.delta == WellDelta(sel, p.reading.well) && p.delta >= cutoff) &&
      (forall r :: r in readings && r.wavelength == wavelength ==>
        Occurs(sel, r.well, |sel|) &&
        (WellDelta(sel, r.well) >= cutoff <==>
          Plotted(r, WellDelta(sel, r.well)) in Kept(readings, wavelength, cutoff)))
  {
    var sel := OfWavelength(readings, wavelength);
    var kept := Kept(readings, wavelength, cutoff);
    OfWavelengthMembers(readings, wavelength);
    KeptUpToMeaning(sel, cutoff, |sel|);
    forall p | p in kept
      ensures p.reading in readings && p.reading.wavelength == wavelength
      ensures Occurs(sel, p.reading.well, |sel|)
      ensures p.delta == WellDelta(sel, p.reading.well) && p.delta >= cutoff
    {
      var k :| 0 <= k < |sel| && p == Plotted(sel[k], RowDelta(sel, k)) && RowDelta(sel, k) >= cutoff;
      assert Occurs(sel, sel[k].well, |sel|);
    }
    forall r | r in readings && r.wavelength == wavelength
      ensures Occurs(sel, r.well, |sel|)
      ensures WellDelta(sel, r.well) >= cutoff <==> Plotted(r, WellDelta(sel, r.well)) in kept
    {
      var k :| 0 <= k < |sel| && sel[k] == r;
      assert Occurs(sel, r.well, |sel|);
      if Plotted(r, WellDelta(sel, r.well)) in kept {
        var k' :| 0 <= k' < |sel| && Plotted(r, WellDelta(sel, r.well)) == Plotted(sel[k'], RowDelta(sel, k')) &&
          RowDelta(sel, k') >= cutoff;
      }
    }
  }

  /** The filter keeps or drops whole wells: when one reading of a well is kept, every
      reading of that well at that wavelength is kept with the same delta. */
  lemma WholeWells(readings: seq<Reading>, wavelength: string, cutoff: real, p: Plotted, r: Reading)
    requires p in Kept(readings, wavelength, cutoff)
    requires r in readings && r.wavelength == wavelength && r.well == p.reading.well
    ensures Plotted(r, p.delta) in Kept(readings, wavelength, cutoff)
  {
    KeptMeaning(readings, wavelength, cutoff);
  }

  /** A well read 0.1, 0.5 and 0.3 on three days has delta 0.4. */
  lemma DeltaOfThreeDays()
    ensures var sel := [Reading(1, "450", "A1", 0.1), Reading(2, "450", "A1", 0.5),
                        Reading(3, "450", "A1", 0.3)];
      Occurs(sel, "A1", 3) && WellDelta(sel, "A1") == 0.4
  {
    var sel := [Reading(1, "450", "A1", 0.1), Reading(2, "450", "A1", 0.5),
                Reading(3, "450", "A1", 0.3)];
    assert sel[0].well == "A1";
    var g := Group(sel, "A1", 3);
    assert g == [0.1, 0.5, 0.3];
    assert Min(g[..2]) == 0.1 && Max(g[..2]) == 0.5 by { assert g[..2][..1] == [0.1]; }
  }

  /** Well A1 read 0.10 on day 1 and 0.50 on day 3 at 450 nm has delta 0.40, so with the
      default cutoff 0.2 both of its points are kept. */
  lemma TwoDayScenario()
    ensures var r1 := Reading(1, "450", "A1", 0.10);
      var r2 := Reading(3, "450", "A1", 0.50);
      Kept([r1, r2], "450", 0.2) == [Plotted(r1, 0.4), Plotted(r2, 0.4)]
  {
    var r1 := Reading(1, "450", "A1", 0.10);
    var r2 := Reading(3, "450", "A1", 0.50);
    var sel := [r1, r2];
    assert OfWavelength(sel, "450") == sel by {
      assert sel[..1] == [r1] && [r1][..0] == [];
    }
    assert RowDelta(sel, 0) == 0.4 && RowDelta(sel, 1) == 0.4 by {
      assert sel[0].well == "A1" && sel[1].well == "A1";
      assert Group(sel, "A1", 1) == [0.10];
      var g := Group(sel, "A1", 2);
      assert g == [0.10, 0.50];
      assert g[..1] == [0.10];
      assert Max(g) == 0.50 && Min(g) == 0.10;
    }
    assert KeptUpTo(sel, 0.2, 1) == [Plotted(r1, 0.4)];
    assert KeptUpTo(sel, 0.2, 2) == [Plotted(r1, 0.4), Plotted(r2, 0.4)];
  }
}

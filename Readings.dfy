/** The long-form table both plotting functions start from: `pd.DataFrame(df_list)` with its
    fourth column converted to float and its columns named `Days`, `Wave_length`, `Well`
    and `Absorbance` (plate_analyzer.py:111-113, 145-147), and the boolean-mask row
    selections taken from it (lines 116, 152-153). */
module Readings {

  /** One row of the frame. */
  datatype Reading = Reading(day: int, wavelength: string, well: string, absorbance: real)

  /** `df[df["Wave_length"] == wavelength]`: the rows of one wavelength, in table order. */
  function OfWavelength(readings: seq<Reading>, wavelength: string): (m: seq<Reading>)
    ensures |m| <= |readings|
    ensures forall k :: 0 <= k < |m| ==> m[k].wavelength == wavelength
  {
    if readings == [] then []
    else if readings[|readings| - 1].wavelength == wavelength then
      OfWavelength(readings[..|readings| - 1], wavelength) + [readings[|readings| - 1]]
    else OfWavelength(readings[..|readings| - 1], wavelength)
  }

  /** `new_df[new_df["Days"] == day]`: the rows of one day, in table order. */
  function OnDay(readings: seq<Reading>, day: int): (m: seq<Reading>)
    ensures |m| <= |readings|
    ensures forall k :: 0 <= k < |m| ==> m[k].day == day
  {
    if readings == [] then []
    else if readings[|readings| - 1].day == day then
      OnDay(readings[..|readings| - 1], day) + [readings[|readings| - 1]]
    else OnDay(readings[..|readings| - 1], day)
  }

  /** The `Absorbance` column of a selection. */
  function Absorbances(readings: seq<Reading>): (v: seq<real>)
    ensures |v| == |readings|
    ensures forall k :: 0 <= k < |v| ==> v[k] == readings[k].absorbance
  {
    seq(|readings|, k requires 0 <= k < |readings| => readings[k].absorbance)
  }

  /** The selection holds exactly the readings of the wavelength. */
  lemma {:induction false} OfWavelengthMembers(readings: seq<Reading>, wavelength: string)
    ensures forall r :: r in OfWavelength(readings, wavelength) <==> r in readings && r.wavelength == wavelength
  {
    if readings != [] {
      var init := readings[..|readings| - 1];
      OfWavelengthMembers(init, wavelength);
      assert readings == init + [readings[|readings| - 1]];
    }
  }

  /** The selection holds exactly the readings of the day. */
  lemma {:induction false} OnDayMembers(readings: seq<Reading>, day: int)
    ensures forall r :: r in OnDay(readings, day) <==> r in readings && r.day == day
  {
    if readings != [] {
      var init := readings[..|readings| - 1];
      OnDayMembers(init, day);
      assert readings == init + [readings[|readings| - 1]];
    }
  }
}

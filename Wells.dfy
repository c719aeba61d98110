/** Well labels of a 96-well plate: a row letter `A`..`H` followed by a column number
    `1`..`12`, built as `letters[i] + str(numbers[j])`. */
module Wells {
  import opened Outcome
  import opened PyText

  /** `letters`: the eight plate rows. */
  const Letters: string := "ABCDEFGH"

  /** `numbers = list(range(1, 13))` has twelve entries, the plate columns. */
  const ColumnCount: nat := 12

  /** The text of the well in data row `i` and data column `j` (both 0-based). */
  function WellLabel(i: nat, j: nat): string
    requires i < |Letters| && j < ColumnCount
  {
    [Letters[i]] + ShowNat(j + 1)
  }

  lemma LetterCode(i: nat)
    requires i < |Letters|
    ensures Letters[i] as int == 'A' as int + i
  {
    if i == 0 {} else if i == 1 {} else if i == 2 {} else if i == 3 {}
    else if i == 4 {} else if i == 5 {} else if i == 6 {} else {}
  }

  /** Reads a text back into its 0-based (row, column) position. */
  function ParseWell(text: string): (r: Option<(nat, nat)>)
    ensures r.Some? ==> r.value.0 < |Letters| && r.value.1 < ColumnCount
  {
    if |text| < 2 || !('A' <= text[0] <= 'H') then None
    else
      match ParseInt(text[1..])
      case Err(_) => None
      case Ok(v) =>
        if 1 <= v <= ColumnCount then Some(((text[0] as int - 'A' as int) as nat, (v - 1) as nat))
        else None
  }

  /** Every text reads back as the position it was made from. */
  lemma ParseWellLabel(i: nat, j: nat)
    requires i < |Letters| && j < ColumnCount
    ensures ParseWell(WellLabel(i, j)) == Some((i, j))
  {
    var text := WellLabel(i, j);
    LetterCode(i);
    assert |text| >= 2 && text[0] == Letters[i];
    assert text[1..] == ShowNat(j + 1);
    ParseShowNat(j + 1);
    assert ParseInt(text[1..]) == Ok(j + 1);
  }

  /** Different positions get different labels: the 8 x 12 positions map one-to-one onto
      96 labels. */
  lemma WellLabelInjective(i: nat, j: nat, i': nat, j': nat)
    requires i < |Letters| && j < ColumnCount && i' < |Letters| && j' < ColumnCount
    requires WellLabel(i, j) == WellLabel(i', j')
    ensures i == i' && j == j'
  {
    ParseWellLabel(i, j);
    ParseWellLabel(i', j');
  }
}

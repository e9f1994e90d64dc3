/** The selection-line id parser: the pattern `\[(\d+)\]`, searched leftmost-first, and the
    decimal value of the digits it captures. */
module Utils {
  import opened Wrappers
  import opened Text

  /** A match of `\[(\d+)\]` on `line[i..j + 1]`: an opening bracket at `i`, a closing bracket
      at `j`, and one or more digits and nothing else strictly between them. */
  predicate IsIdGroup(line: string, i: int, j: int) {
    && 0 <= i && i + 1 < j < |line|
    && line[i] == '[' && line[j] == ']'
    && forall k | i < k < j :: IsDigit(line[k])
  }

  /** The end of the maximal run of digits that starts at `k` (the greedy `\d+`). */
  function DigitRunEnd(line: string, k: nat): (e: nat)
    requires k <= |line|
    ensures k <= e <= |line|
    ensures forall m | k <= m < e :: IsDigit(line[m])
    ensures e == |line| || !IsDigit(line[e])
    decreases |line| - k
  {
    if k < |line| && IsDigit(line[k]) then DigitRunEnd(line, k + 1) else k
  }

  /** One match attempt at position `i`: the closing bracket of the group opening there, if any.
      Since a digit is never a bracket, there is at most one such group. */
  function GroupEndAt(line: string, i: nat): (r: Option<nat>)
    requires i < |line|
    ensures r.Some? ==> IsIdGroup(line, i, r.value)
    ensures forall j | IsIdGroup(line, i, j) :: r == Some(j)
  {
    if line[i] != '[' then None
    else
      var e := DigitRunEnd(line, i + 1);
      if i + 1 < e < |line| && line[e] == ']' then Some(e) else None
  }

  /** The regex search from position `from`: the leftmost group that opens at or after it. */
  function SearchFrom(line: string, from: nat): (r: Option<(nat, nat)>)
    requires from <= |line|
    ensures r.Some? ==> from <= r.value.0 && IsIdGroup(line, r.value.0, r.value.1)
    ensures r.Some? ==> forall i, j | from <= i < r.value.0 :: !IsIdGroup(line, i, j)
    ensures r.None? ==> forall i, j | from <= i :: !IsIdGroup(line, i, j)
    decreases |line| - from
  {
    if from == |line| then None
    else
      match GroupEndAt(line, from)
      case Some(j) => Some((from, j))
      case None => SearchFrom(line, from + 1)
  }

  /** `parse_item_id_from_line`: the value of the digits of the leftmost `[digits]` group, or
      `None` when the line has no such group. */
  function ParseItemId(line: string): (r: Option<nat>)
    ensures r.None? <==> forall i, j :: !IsIdGroup(line, i, j)
    ensures r.Some? ==>
      exists i, j ::
        && IsIdGroup(line, i, j)
        && AllDigits(line[i + 1..j])
        && r.value == DecimalValue(line[i + 1..j])
        && forall i', j' | i' < i :: !IsIdGroup(line, i', j')
  {
    match SearchFrom(line, 0)
    case None => None
    case Some((i, j)) =>
      var digits := line[i + 1..j];
      assert AllDigits(digits) by {
        forall m | 0 <= m < |digits| ensures IsDigit(digits[m]) {
          assert digits[m] == line[i + 1 + m];
        }
      }
      Some(DecimalValue(digits))
  }

  /** Once a group opens at `p` and none opens before it, the parser reads exactly that group. */
  lemma ParseAtFirstGroup(line: string, p: nat, q: nat)
    requires IsIdGroup(line, p, q)
    requires forall i, j | i < p :: !IsIdGroup(line, i, j)
    ensures AllDigits(line[p + 1..q])
    ensures ParseItemId(line) == Some(DecimalValue(line[p + 1..q]))
  {
    var r := ParseItemId(line);
    var i, j :| && IsIdGroup(line, i, j)
                && AllDigits(line[i + 1..j])
                && r.value == DecimalValue(line[i + 1..j])
                && forall i', j' | i' < i :: !IsIdGroup(line, i', j');
    assert i == p;
    assert GroupEndAt(line, p) == Some(j) == Some(q);
  }

  /** The search from the right: the rightmost group that opens before `upTo`. */
  function SearchBackFrom(line: string, upTo: nat): (r: Option<(nat, nat)>)
    requires upTo <= |line|
    ensures r.Some? ==> r.value.0 < upTo && IsIdGroup(line, r.value.0, r.value.1)
    ensures r.Some? ==> forall i, j | r.value.0 < i < upTo :: !IsIdGroup(line, i, j)
    ensures r.None? ==> forall i, j | i < upTo :: !IsIdGroup(line, i, j)
    decreases upTo
  {
    if upTo == 0 then None
    else
      match GroupEndAt(line, upTo - 1)
      case Some(j) => Some((upTo - 1, j))
      case None => SearchBackFrom(line, upTo - 1)
  }

  /** The id extraction as the display line needs it: the value of the rightmost `[digits]`
      group, which is the id appended after the title. */
  function ParseLastItemId(line: string): (r: Option<nat>)
    ensures r.None? <==> forall i, j :: !IsIdGroup(line, i, j)
    ensures r.Some? ==>
      exists i, j ::
        && IsIdGroup(line, i, j)
        && AllDigits(line[i + 1..j])
        && r.value == DecimalValue(line[i + 1..j])
        && forall i', j' | i < i' :: !IsIdGroup(line, i', j')
  {
    match SearchBackFrom(line, |line|)
    case None => None
    case Some((i, j)) =>
      var digits := line[i + 1..j];
      assert AllDigits(digits) by {
        forall m | 0 <= m < |digits| ensures IsDigit(digits[m]) {
          assert digits[m] == line[i + 1 + m];
        }
      }
      Some(DecimalValue(digits))
  }

  /** Once a group opens at `p` and none opens after it, the rightmost parse reads that group. */
  lemma ParseAtLastGroup(line: string, p: nat, q: nat)
    requires IsIdGroup(line, p, q)
    requires forall i, j | p < i :: !IsIdGroup(line, i, j)
    ensures AllDigits(line[p + 1..q])
    ensures ParseLastItemId(line) == Some(DecimalValue(line[p + 1..q]))
  {
    var r := ParseLastItemId(line);
    var i, j :| && IsIdGroup(line, i, j)
                && AllDigits(line[i + 1..j])
                && r.value == DecimalValue(line[i + 1..j])
                && forall i', j' | i < i' :: !IsIdGroup(line, i', j');
    assert i == p;
    assert GroupEndAt(line, p) == Some(j) == Some(q);
  }

  /** A bracket group holding anything but digits, such as the colour code `[90m`, is skipped,
      and leading zeros do not change the value. */
  lemma SkipsColourCode()
    ensures ParseItemId("\U{1B}[90m[007]") == Some(7)
  {
    var line := "\U{1B}[90m[007]";
    forall i, j | i < 5 ensures !IsIdGroup(line, i, j) {
      assert line[1] == '[' && line[2] == '9' && line[3] == '0' && line[4] == 'm';
      assert i == 1 && j > 4 ==> !IsDigit(line[4]);
    }
    assert line[5] == '[' && line[6] == '0' && line[7] == '0' && line[8] == '7' && line[9] == ']';
    ParseAtFirstGroup(line, 5, 9);
    assert line[6..9] == "007";
    LeadingZeroIgnored("7");
    assert "0" + "7" == "07";
    LeadingZeroIgnored("07");
    assert "0" + "07" == "007";
    assert DecimalValue("7") == 7;
  }

  /** The examples the repository's own tests check: a title with an id... */
  lemma ParseTitleWithId()
    ensures ParseItemId("Paper Title [42]") == Some(42)
  {
    var line := "Paper Title [42]";
    assert forall k | 0 <= k < 12 :: line[k] != '[';
    assert line[12] == '[' && line[13] == '4' && line[14] == '2' && line[15] == ']';
    ParseAtFirstGroup(line, 12, 15);
    assert line[13..15] == "42";
    assert DecimalValue("4") == 4;
  }

  /** ...and a line without one. */
  lemma ParseLineWithoutId()
    ensures ParseItemId("No id here") == None
  {
    var none := "No id here";
    assert forall k | 0 <= k < |none| :: none[k] != '[';
  }
}

/**
 * The colour helper of src/lib/utils.ts: `getContrastColor` picks the text
 * tone for a background by a plain, case-sensitive substring test.
 */
module Contrast {

  /** `needle` occurs in `hay` starting at index `i`. */
  predicate MatchAt(hay: string, needle: string, i: nat) {
    i + |needle| <= |hay| && hay[i..i + |needle|] == needle
  }

  /** Reference meaning of `hay.includes(needle)`: some position matches. */
  ghost predicate Contains(hay: string, needle: string) {
    exists i: nat :: MatchAt(hay, needle, i)
  }

  /** JavaScript's `String.prototype.includes`, as a left-to-right search. */
  function Includes(hay: string, needle: string): (b: bool)
    ensures b <==> Contains(hay, needle)
    decreases |hay|
  {
    if |hay| < |needle| then
      assert forall i: nat :: !MatchAt(hay, needle, i);
      false
    else if hay[..|needle|] == needle then
      assert MatchAt(hay, needle, 0);
      true
    else
      var rest := Includes(hay[1..], needle);
      ShiftMatch(hay, needle);
      rest
  }

  /** Matches in `hay[1..]` are exactly the matches in `hay` past index 0. */
  lemma ShiftMatch(hay: string, needle: string)
    requires |hay| >= |needle| && hay[..|needle|] != needle
    ensures Contains(hay, needle) <==> Contains(hay[1..], needle)
  {
    if Contains(hay, needle) {
      var i: nat :| MatchAt(hay, needle, i);
      assert i != 0;
      assert hay[1..][i - 1..i - 1 + |needle|] == hay[i..i + |needle|];
      assert MatchAt(hay[1..], needle, i - 1);
    }
    if Contains(hay[1..], needle) {
      var j: nat :| MatchAt(hay[1..], needle, j);
      assert hay[j + 1..j + 1 + |needle|] == hay[1..][j..j + |needle|];
      assert MatchAt(hay, needle, j + 1);
    }
  }

  /** `getContrastColor`: "light" text on a background whose name mentions "dark". */
  function GetContrastColor(bgColor: string): (r: string)
    ensures r == "light" || r == "dark"
    ensures r == "light" <==> Contains(bgColor, "dark")
  {
    if Includes(bgColor, "dark") then "light" else "dark"
  }

  /** The empty background name gives "dark". */
  lemma EmptyIsDark()
    ensures GetContrastColor("") == "dark"
  {
  }

  /**
   * The test is case-sensitive: a name without a lower-case 'd' (such as
   * "Dark" or "DARK") never matches, so it gives "dark".
   */
  lemma {:induction false} NoLowerDIsDark(bgColor: string)
    requires 'd' !in bgColor
    ensures GetContrastColor(bgColor) == "dark"
  {
    forall i: nat | i + 4 <= |bgColor|
      ensures !MatchAt(bgColor, "dark", i)
    {
      assert bgColor[i..i + 4][0] == bgColor[i] != 'd';
    }
  }

  /** One concrete case of the above: "Dark" gives "dark". */
  lemma CapitalDarkIsDark()
    ensures GetContrastColor("Dark") == "dark"
  {
    NoLowerDIsDark("Dark");
  }

  /** Growing the name around a "light" one keeps it "light". */
  lemma {:induction false} LightIsMonotone(before: string, bgColor: string, after: string)
    requires GetContrastColor(bgColor) == "light"
    ensures GetContrastColor(before + bgColor + after) == "light"
  {
    var i: nat :| MatchAt(bgColor, "dark", i);
    var t := before + bgColor + after;
    assert t[|before| + i..|before| + i + 4] == bgColor[i..i + 4];
    assert MatchAt(t, "dark", |before| + i);
  }
}

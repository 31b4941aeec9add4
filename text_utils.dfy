/**
 * The text normaliser of the extractors: whitespace collapsing (`clean_text`)
 * and the numeric rating found in an accessibility label
 * (`extract_rating_from_aria`).
 *
 * Python's `\s`, `\d` and `str.strip()` work on Unicode classes; this model
 * uses their ASCII members.
 */
module TextUtils {
  import opened Wrappers

  /** Whitespace as `\s` and `str.strip()` see it among ASCII characters:
      space, tab, line feed, vertical tab, form feed, carriage return and
      the four separators U+001C to U+001F. */
  predicate IsSpace(c: char) {
    c == ' ' || (9 <= c as int <= 13) || (28 <= c as int <= 31)
  }

  predicate IsDigit(c: char) {
    '0' <= c <= '9'
  }

  predicate AllDigits(s: string) {
    forall k | 0 <= k < |s| :: IsDigit(s[k])
  }

  predicate AllSpace(s: string) {
    forall k | 0 <= k < |s| :: IsSpace(s[k])
  }

  // ---------------------------------------------------------------------
  // Stripping and collapsing
  // ---------------------------------------------------------------------

  /** `s.lstrip()`: the suffix of `s` from its first non-whitespace character. */
  function LStrip(s: string): (r: string)
    ensures |r| <= |s| && r == s[|s| - |r|..]
    ensures s != [] && IsSpace(s[0]) ==> |r| < |s|
    ensures r == [] || !IsSpace(r[0])
    ensures AllSpace(s[..|s| - |r|])
  {
    if s != [] && IsSpace(s[0]) then
      var r := LStrip(s[1..]);
      LStripStep(s, r);
      r
    else s
  }

  lemma LStripStep(s: string, r: string)
    requires s != [] && IsSpace(s[0]) && |r| < |s|
    requires r == s[1..][|s| - 1 - |r|..] && AllSpace(s[1..][..|s| - 1 - |r|])
    ensures r == s[|s| - |r|..] && AllSpace(s[..|s| - |r|])
  {
    var n := |s| - |r|;
    forall k | 0 <= k < n ensures IsSpace(s[..n][k]) {
      if k > 0 { assert s[..n][k] == s[1..][..n - 1][k - 1]; }
    }
  }

  /** `s.rstrip()`: the prefix of `s` up to its last non-whitespace character. */
  function RStrip(s: string): (r: string)
    ensures |r| <= |s| && r == s[..|r|]
    ensures r == [] || !IsSpace(r[|r| - 1])
    ensures AllSpace(s[|r|..])
  {
    if s != [] && IsSpace(s[|s| - 1]) then
      var r := RStrip(s[..|s| - 1]);
      RStripStep(s, r);
      r
    else s
  }

  lemma RStripStep(s: string, r: string)
    requires s != [] && IsSpace(s[|s| - 1]) && |r| < |s|
    requires r == s[..|s| - 1][..|r|] && AllSpace(s[..|s| - 1][|r|..])
    ensures r == s[..|r|] && AllSpace(s[|r|..])
  {
    var n := |r|;
    forall k | 0 <= k < |s| - n ensures IsSpace(s[n..][k]) {
      if k < |s| - 1 - n { assert s[n..][k] == s[..|s| - 1][n..][k]; }
    }
  }

  /** `s.strip()`: `s` without leading and trailing whitespace. */
  function Strip(s: string): (r: string)
    ensures r == [] || (!IsSpace(r[0]) && !IsSpace(r[|r| - 1]))
  {
    LStrip(RStrip(s))
  }

  /** `Strip(s)` is the slice `s[a..b]` with only whitespace around it. */
  lemma StripBounds(s: string) returns (a: nat, b: nat)
    ensures a <= b <= |s| && Strip(s) == s[a..b]
    ensures AllSpace(s[..a]) && AllSpace(s[b..])
  {
    var t := RStrip(s);
    var r := LStrip(t);
    a, b := |t| - |r|, |t|;
    assert r == s[a..b];
    assert s[..a] == t[..a];
  }

  /** `WHITESPACE_RE.sub(" ", s)`: every maximal run of whitespace becomes a
      single space, every other character is kept. */
  function Collapse(s: string): (r: string)
    ensures r == [] <==> s == []
    ensures r != [] ==> IsSpace(r[0]) == IsSpace(s[0])
    ensures forall k | 0 <= k < |r| :: IsSpace(r[k]) ==> r[k] == ' '
    ensures forall k | 0 <= k < |r| - 1 :: !(r[k] == ' ' && r[k + 1] == ' ')
    decreases |s|
  {
    if s == [] then []
    else if IsSpace(s[0]) then
      [' '] + Collapse(LStrip(s))
    else
      [s[0]] + Collapse(s[1..])
  }

  /** The shape of every `clean_text` result: no whitespace at either end,
      no whitespace other than a plain space, and no two spaces in a row. */
  predicate IsClean(s: string) {
    && (s != [] ==> !IsSpace(s[0]) && !IsSpace(s[|s| - 1]))
    && (forall k | 0 <= k < |s| :: IsSpace(s[k]) ==> s[k] == ' ')
    && (forall k | 0 <= k < |s| - 1 :: !(s[k] == ' ' && s[k + 1] == ' '))
  }

  /** `clean_text(text)`: `""` for `None`, otherwise the collapsed and
      stripped text. */
  function CleanText(text: Option<string>): (r: string)
    ensures text.None? ==> r == ""
    ensures IsClean(r)
  {
    match text
    case None => ""
    case Some(t) =>
      var c := Collapse(t);
      StripKeepsSpacing(c);
      Strip(c)
  }

  /** Stripping a string whose only whitespace is single spaces leaves a
      clean string. */
  lemma StripKeepsSpacing(s: string)
    requires forall k | 0 <= k < |s| :: IsSpace(s[k]) ==> s[k] == ' '
    requires forall k | 0 <= k < |s| - 1 :: !(s[k] == ' ' && s[k + 1] == ' ')
    ensures IsClean(Strip(s))
  {
    var a, b := StripBounds(s);
    SliceKeepsSpacing(s, a, b);
  }

  lemma SliceKeepsSpacing(s: string, a: nat, b: nat)
    requires a <= b <= |s|
    requires forall k | 0 <= k < |s| :: IsSpace(s[k]) ==> s[k] == ' '
    requires forall k | 0 <= k < |s| - 1 :: !(s[k] == ' ' && s[k + 1] == ' ')
    ensures forall k | 0 <= k < b - a :: IsSpace(s[a..b][k]) ==> s[a..b][k] == ' '
    ensures forall k | 0 <= k < b - a - 1 :: !(s[a..b][k] == ' ' && s[a..b][k + 1] == ' ')
  {
    var r := s[a..b];
    forall k | 0 <= k < |r| ensures IsSpace(r[k]) ==> r[k] == ' ' {
      assert r[k] == s[a + k];
    }
    forall k | 0 <= k < |r| - 1 ensures !(r[k] == ' ' && r[k + 1] == ' ') {
      assert r[k] == s[a + k] && r[k + 1] == s[a + k + 1];
    }
  }

  /** The non-whitespace characters of `s`, in order. */
  function NonSpace(s: string): string {
    if s == [] then []
    else (if IsSpace(s[0]) then [] else [s[0]]) + NonSpace(s[1..])
  }

  lemma {:induction false} NonSpaceAppend(a: string, b: string)
    ensures NonSpace(a + b) == NonSpace(a) + NonSpace(b)
  {
    if a != [] {
      assert (a + b)[0] == a[0];
      assert (a + b)[1..] == a[1..] + b;
      NonSpaceAppend(a[1..], b);
    } else {
      assert a + b == b;
    }
  }

  lemma {:induction false} NonSpaceOfSpaces(s: string)
    requires AllSpace(s)
    ensures NonSpace(s) == []
  {
    if s != [] {
      NonSpaceOfSpaces(s[1..]);
    }
  }

  lemma {:induction false} NonSpaceEmpty(s: string)
    requires NonSpace(s) == []
    ensures AllSpace(s)
  {
    if s != [] {
      NonSpaceEmpty(s[1..]);
      forall k | 0 <= k < |s| ensures IsSpace(s[k]) {
        if k > 0 { assert s[k] == s[1..][k - 1]; }
      }
    }
  }

  lemma {:induction false} NonSpaceCollapse(s: string)
    ensures NonSpace(Collapse(s)) == NonSpace(s)
    decreases |s|
  {
    if s == [] {
    } else if IsSpace(s[0]) {
      var rest := LStrip(s);
      NonSpaceCollapse(rest);
      assert s == s[..|s| - |rest|] + rest;
      NonSpaceAppend(s[..|s| - |rest|], rest);
      NonSpaceOfSpaces(s[..|s| - |rest|]);
      assert Collapse(s) == [' '] + Collapse(rest);
      NonSpaceAppend([' '], Collapse(rest));
    } else {
      NonSpaceCollapse(s[1..]);
      assert Collapse(s) == [s[0]] + Collapse(s[1..]);
      NonSpaceAppend([s[0]], Collapse(s[1..]));
    }
  }

  lemma NonSpaceStrip(s: string)
    ensures NonSpace(Strip(s)) == NonSpace(s)
  {
    var a, b := StripBounds(s);
    NonSpaceAround(s, a, b);
  }

  /** Whitespace on either side of `s[a..b]` adds no non-whitespace
      character. */
  lemma NonSpaceAround(s: string, a: nat, b: nat)
    requires a <= b <= |s| && AllSpace(s[..a]) && AllSpace(s[b..])
    ensures NonSpace(s[a..b]) == NonSpace(s)
  {
    var x, y, z := s[..a], s[a..b], s[b..];
    assert s == x + y + z;
    NonSpaceAppend(x + y, z);
    NonSpaceAppend(x, y);
    NonSpaceOfSpaces(x);
    NonSpaceOfSpaces(z);
  }

  /** `clean_text` keeps every non-whitespace character, in order, and adds
      none. */
  lemma CleanTextKeepsNonSpace(t: string)
    ensures NonSpace(CleanText(Some(t))) == NonSpace(t)
  {
    NonSpaceStrip(Collapse(t));
    NonSpaceCollapse(t);
  }

  /** `clean_text` yields `""` exactly when its input is all whitespace. */
  lemma CleanTextEmptyIff(t: string)
    ensures CleanText(Some(t)) == "" <==> AllSpace(t)
  {
    var r := CleanText(Some(t));
    CleanTextKeepsNonSpace(t);
    if AllSpace(t) {
      NonSpaceOfSpaces(t);
    } else if r == [] {
      NonSpaceEmpty(t);
    }
  }

  /** Collapsing changes nothing in a string that is already clean. */
  lemma {:induction false} CollapseClean(s: string)
    requires forall k | 0 <= k < |s| :: IsSpace(s[k]) ==> s[k] == ' '
    requires forall k | 0 <= k < |s| - 1 :: !(s[k] == ' ' && s[k + 1] == ' ')
    requires s != [] ==> !IsSpace(s[|s| - 1])
    ensures Collapse(s) == s
    decreases |s|
  {
    if s != [] {
      var t := s[1..];
      assert forall k | 0 <= k < |t| :: t[k] == s[k + 1];
      CollapseClean(t);
      if IsSpace(s[0]) {
        assert t != [] && !IsSpace(t[0]);
        assert LStrip(s) == t;
      }
    }
  }

  /** A clean string is its own `clean_text`. */
  lemma CleanTextFixesClean(s: string)
    requires IsClean(s)
    ensures CleanText(Some(s)) == s
  {
    CollapseClean(s);
    assert RStrip(s) == s;
    assert LStrip(s) == s;
  }

  /** `clean_text(clean_text(x)) == clean_text(x)`. */
  lemma CleanTextIdempotent(text: Option<string>)
    ensures CleanText(Some(CleanText(text))) == CleanText(text)
  {
    CleanTextFixesClean(CleanText(text));
  }

  // ---------------------------------------------------------------------
  // Ratings in accessibility labels
  // ---------------------------------------------------------------------

  /** A decimal literal matched by `\d+(\.\d+)?`: integer digits and the
      fraction digits, the latter empty when the optional group did not
      match. It stands for the float the source converts it to. */
  datatype Decimal = Decimal(whole: string, frac: string)

  predicate WellFormed(d: Decimal) {
    d.whole != [] && AllDigits(d.whole) && AllDigits(d.frac)
  }

  /** The text of the literal as it appears in the label. */
  function Literal(d: Decimal): string {
    if d.frac == [] then d.whole else d.whole + "." + d.frac
  }

  /** No character after position `e` could extend the match of `d`: no
      further digit, and, when `d` has no fraction, no `.` followed by a
      digit. */
  predicate Unextendable(s: string, e: nat, d: Decimal) {
    && (e < |s| ==> !IsDigit(s[e]))
    && (d.frac == [] ==> !(e + 1 < |s| && s[e] == '.' && IsDigit(s[e + 1])))
  }

  /** The regex search matches `d` at position `i` of `s`: the first digit of
      `s` is at `i`, the literal of `d` is written there, and it cannot be
      extended. */
  predicate NumberMatchAt(s: string, i: int, d: Decimal) {
    && WellFormed(d)
    && 0 <= i && i + |Literal(d)| <= |s|
    && s[i..i + |Literal(d)|] == Literal(d)
    && (forall k | 0 <= k < i :: !IsDigit(s[k]))
    && Unextendable(s, i + |Literal(d)|, d)
  }

  /** `d` is the leftmost longest match of `\d+(\.\d+)?` in `s`. */
  ghost predicate LeftmostNumber(s: string, d: Decimal) {
    exists i :: NumberMatchAt(s, i, d)
  }

  /** The end of the run of digits that starts at `i`. */
  function DigitsEnd(s: string, i: nat): (j: nat)
    requires i <= |s|
    ensures i <= j <= |s|
    ensures forall k | i <= k < j :: IsDigit(s[k])
    ensures j < |s| ==> !IsDigit(s[j])
    decreases |s| - i
  {
    if i < |s| && IsDigit(s[i]) then DigitsEnd(s, i + 1) else i
  }

  /** The position of the first digit of `s` at or after `from`. */
  function FirstDigit(s: string, from: nat): (r: Option<nat>)
    requires from <= |s|
    ensures r.None? ==> forall k | from <= k < |s| :: !IsDigit(s[k])
    ensures r.Some? ==> from <= r.value < |s| && IsDigit(s[r.value])
    ensures r.Some? ==> forall k | from <= k < r.value :: !IsDigit(s[k])
    decreases |s| - from
  {
    if from == |s| then None
    else if IsDigit(s[from]) then Some(from)
    else FirstDigit(s, from + 1)
  }

  /** The greedy match of `\d+(\.\d+)?` starting at the digit `s[i]`. */
  function NumberAt(s: string, i: nat): (d: Decimal)
    requires i < |s| && IsDigit(s[i])
    ensures WellFormed(d) && i + |Literal(d)| <= |s|
    ensures s[i..i + |Literal(d)|] == Literal(d)
    ensures Unextendable(s, i + |Literal(d)|, d)
  {
    var j := DigitsEnd(s, i);
    DigitRunSlice(s, i, j);
    if j + 1 < |s| && s[j] == '.' && IsDigit(s[j + 1]) then
      var e := DigitsEnd(s, j + 1);
      DigitRunSlice(s, j + 1, e);
      var d := Decimal(s[i..j], s[j + 1..e]);
      assert d.frac != [] && Literal(d) == s[i..e] by { PointSlice(s, i, j, e); }
      d
    else
      var d := Decimal(s[i..j], "");
      assert Literal(d) == s[i..j];
      d
  }

  lemma DigitRunSlice(s: string, i: nat, j: nat)
    requires i <= j <= |s|
    requires forall k | i <= k < j :: IsDigit(s[k])
    ensures AllDigits(s[i..j])
  {
    assert forall k | 0 <= k < j - i :: s[i..j][k] == s[i + k];
  }

  /** A literal with a fraction is its two digit runs around the point. */
  lemma PointSlice(s: string, i: nat, j: nat, e: nat)
    requires i <= j < e <= |s| && s[j] == '.'
    ensures s[i..e] == s[i..j] + "." + s[j + 1..e]
  {
    assert s[i..e] == s[i..j] + s[j..e];
    assert s[j..e] == [s[j]] + s[j + 1..e];
  }

  /** `extract_rating_from_aria(label)`: `None` for a missing or empty label
      or one without a digit, otherwise the leftmost longest decimal literal. */
  function ExtractRatingFromAria(ariaLabel: Option<string>): (r: Option<Decimal>)
    ensures ariaLabel.None? || ariaLabel == Some("") ==> r.None?
    ensures ariaLabel.Some? ==> (r.Some? <==> exists k | 0 <= k < |ariaLabel.value| :: IsDigit(ariaLabel.value[k]))
    ensures r.Some? ==> LeftmostNumber(ariaLabel.value, r.value)
  {
    match ariaLabel
    case None => None
    case Some(s) =>
      if s == "" then None
      else
        match FirstDigit(s, 0)
        case None => None
        case Some(i) =>
          var d := NumberAt(s, i);
          assert NumberMatchAt(s, i, d);
          Some(d)
  }

  lemma LiteralDigitsAt(s: string, i: int, d: Decimal, k: int)
    requires NumberMatchAt(s, i, d) && 0 <= k < |d.whole|
    ensures s[i + k] == d.whole[k]
  {
    assert Literal(d)[k] == d.whole[k];
    assert s[i..i + |Literal(d)|][k] == s[i + k];
  }

  /** The match at `i` has the whole digit run starting at `i` as its
      integer part. */
  lemma WholeIsDigitRun(s: string, i: int, d: Decimal)
    requires NumberMatchAt(s, i, d)
    ensures d.whole == s[i..DigitsEnd(s, i)]
  {
    var n := |d.whole|;
    forall k | 0 <= k < n ensures s[i + k] == d.whole[k] {
      LiteralDigitsAt(s, i, d, k);
    }
    var e := i + n;
    assert e <= |s|;
    assert e < |s| ==> !IsDigit(s[e]) by {
      if e < |s| {
        if d.frac == [] {
          assert e == i + |Literal(d)|;
        } else {
          assert Literal(d)[n] == '.';
          assert s[i..i + |Literal(d)|][n] == s[e];
        }
      }
    }
    DigitsEndIs(s, i, e);
    assert d.whole == s[i..e];
  }

  /** `DigitsEnd` is the one end of an unextendable digit run. */
  lemma {:induction false} DigitsEndIs(s: string, i: nat, e: nat)
    requires i <= e <= |s|
    requires forall k | i <= k < e :: IsDigit(s[k])
    requires e < |s| ==> !IsDigit(s[e])
    ensures DigitsEnd(s, i) == e
    decreases e - i
  {
    if i < e {
      DigitsEndIs(s, i + 1, e);
    }
  }

  /** The leftmost longest match is unique, so `ExtractRatingFromAria`
      returns THE match. */
  lemma LeftmostNumberUnique(s: string, d1: Decimal, d2: Decimal)
    requires LeftmostNumber(s, d1) && LeftmostNumber(s, d2)
    ensures d1 == d2
  {
    var i1 :| NumberMatchAt(s, i1, d1);
    var i2 :| NumberMatchAt(s, i2, d2);
    MatchStartsAtFirstDigit(s, i1, d1);
    MatchStartsAtFirstDigit(s, i2, d2);
    MatchIsNumberAt(s, i1, d1);
    MatchIsNumberAt(s, i2, d2);
  }

  /** A match starts at the first digit of the label. */
  lemma MatchStartsAtFirstDigit(s: string, i: int, d: Decimal)
    requires NumberMatchAt(s, i, d)
    ensures FirstDigit(s, 0) == Some(i)
  {
    LiteralDigitsAt(s, i, d, 0);
  }

  /** The match at `i` is the greedy match that `NumberAt` builds. */
  lemma MatchIsNumberAt(s: string, i: int, d: Decimal)
    requires NumberMatchAt(s, i, d)
    ensures 0 <= i < |s| && IsDigit(s[i]) && d == NumberAt(s, i)
  {
    LiteralDigitsAt(s, i, d, 0);
    WholeIsDigitRun(s, i, d);
    if d.frac != [] {
      FracIsDigitRun(s, i, d);
      FractionMatch(s, i, d);
    } else {
      WholeMatch(s, i, d);
    }
  }

  lemma FractionMatch(s: string, i: nat, d: Decimal)
    requires i < |s| && IsDigit(s[i]) && d.frac != []
    requires d.whole == s[i..DigitsEnd(s, i)]
    requires i + |d.whole| + 1 < |s| && s[i + |d.whole|] == '.'
    requires d.frac == s[i + |d.whole| + 1..DigitsEnd(s, i + |d.whole| + 1)]
    ensures d == NumberAt(s, i)
  {
    var j := DigitsEnd(s, i);
    assert IsDigit(s[j + 1]);
  }

  lemma WholeMatch(s: string, i: nat, d: Decimal)
    requires i < |s| && IsDigit(s[i]) && d.frac == []
    requires d.whole == s[i..DigitsEnd(s, i)]
    requires Unextendable(s, i + |Literal(d)|, d)
    ensures d == NumberAt(s, i)
  {
    assert Literal(d) == d.whole;
  }

  /** A match whose edge after the integer part is `.` and a digit has a
      fraction, and its fraction is the whole digit run after the point. */
  lemma FracIsDigitRun(s: string, i: int, d: Decimal)
    requires NumberMatchAt(s, i, d)
    requires d.frac != [] || (i + |d.whole| + 1 < |s| && s[i + |d.whole|] == '.' && IsDigit(s[i + |d.whole| + 1]))
    ensures d.frac != []
    ensures i + |d.whole| + 1 < |s| && s[i + |d.whole|] == '.'
    ensures d.frac == s[i + |d.whole| + 1..DigitsEnd(s, i + |d.whole| + 1)]
  {
    var n := |d.whole|;
    var L := Literal(d);
    var f := i + n + 1;
    assert L[n] == '.';
    assert s[i..i + |L|][n] == s[i + n];
    forall k | 0 <= k < |d.frac| ensures s[f + k] == d.frac[k] {
      assert L[n + 1 + k] == d.frac[k];
      assert s[i..i + |L|][n + 1 + k] == s[f + k];
    }
    DigitsEndIs(s, f, f + |d.frac|);
    assert d.frac == s[f..f + |d.frac|];
  }

  /** The label from which the source's own docstring takes its example. */
  lemma RatingOfFourAndAHalf()
    ensures ExtractRatingFromAria(Some("4.5 star rating")) == Some(Decimal("4", "5"))
  {
    var s := "4.5 star rating";
    assert NumberMatchAt(s, 0, Decimal("4", "5"));
    LeftmostNumberUnique(s, ExtractRatingFromAria(Some(s)).value, Decimal("4", "5"));
  }

  /** A point that no digit follows is not part of the match. */
  lemma RatingOfFourPoint()
    ensures ExtractRatingFromAria(Some("4. stars")) == Some(Decimal("4", ""))
  {
    var s := "4. stars";
    assert NumberMatchAt(s, 0, Decimal("4", ""));
    LeftmostNumberUnique(s, ExtractRatingFromAria(Some(s)).value, Decimal("4", ""));
  }

  lemma RatingWithoutDigits()
    ensures ExtractRatingFromAria(Some("no digits here")).None?
  {
    var s := "no digits here";
    assert forall k | 0 <= k < |s| :: !IsDigit(s[k]);
  }
}

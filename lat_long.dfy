/** The coordinate check shared by both machines: the string `"<lat>, <lng>"`
    must match

      ^[-+]?([1-8]?\d(\.\d+)?|90(\.0+)?),\s*[-+]?(180(\.0+)?|((1[0-7]\d)|([1-9]?\d))(\.\d+)?)$

    `PatternMatch` transcribes the pattern alternative by alternative;
    `MatchesLatLong` is the recognizer the machines use; `MatchesIffPattern`
    proves them equal, and `LatitudeRange`/`LongitudeRange` say which numbers
    the pattern admits. */
module LatLong {

  import JsValues

  /** `\d` */
  predicate IsDigit(c: char) { '0' <= c <= '9' }

  /** `[-+]` */
  predicate IsSign(c: char) { c == '-' || c == '+' }

  /** `\s` of JavaScript regular expressions. */
  predicate IsSpace(c: char) {
    c == ' ' || '\t' <= c <= '\r' || c == '\U{A0}' || c == '\U{1680}'
    || '\U{2000}' <= c <= '\U{200A}' || c == '\U{2028}' || c == '\U{2029}'
    || c == '\U{202F}' || c == '\U{205F}' || c == '\U{3000}' || c == '\U{FEFF}'
  }

  predicate AllDigits(s: string) { forall k :: 0 <= k < |s| ==> IsDigit(s[k]) }

  predicate AllSpace(s: string) { forall k :: 0 <= k < |s| ==> IsSpace(s[k]) }

  /** `(\.\d+)?` */
  predicate Fraction(s: string) {
    s == [] || (s[0] == '.' && |s| >= 2 && AllDigits(s[1..]))
  }

  /** `(\.0+)?` */
  predicate ZeroFraction(s: string) {
    s == [] || (s[0] == '.' && |s| >= 2 && forall k :: 1 <= k < |s| ==> s[k] == '0')
  }

  /** `[1-8]?\d(\.\d+)?|90(\.0+)?` */
  predicate LatBody(t: string) {
    || (|t| >= 1 && IsDigit(t[0]) && Fraction(t[1..]))
    || (|t| >= 2 && '1' <= t[0] <= '8' && IsDigit(t[1]) && Fraction(t[2..]))
    || (|t| >= 2 && t[0] == '9' && t[1] == '0' && ZeroFraction(t[2..]))
  }

  /** `180(\.0+)?|((1[0-7]\d)|([1-9]?\d))(\.\d+)?` */
  predicate LngBody(t: string) {
    || (|t| >= 3 && t[0] == '1' && t[1] == '8' && t[2] == '0' && ZeroFraction(t[3..]))
    || (|t| >= 3 && t[0] == '1' && '0' <= t[1] <= '7' && IsDigit(t[2]) && Fraction(t[3..]))
    || (|t| >= 2 && '1' <= t[0] <= '9' && IsDigit(t[1]) && Fraction(t[2..]))
    || (|t| >= 1 && IsDigit(t[0]) && Fraction(t[1..]))
  }

  /** `[-+]?` followed by the latitude body. */
  predicate LatPart(a: string) {
    LatBody(a) || (|a| >= 1 && IsSign(a[0]) && LatBody(a[1..]))
  }

  /** `[-+]?` followed by the longitude body. */
  predicate LngPart(b: string) {
    LngBody(b) || (|b| >= 1 && IsSign(b[0]) && LngBody(b[1..]))
  }

  /** `s` splits as latitude `s[..i]`, the comma `s[i]`, blanks `s[i+1..j]`, longitude `s[j..]`. */
  predicate SplitAt(s: string, i: nat, j: nat)
    requires i < j <= |s|
  {
    s[i] == ',' && LatPart(s[..i]) && AllSpace(s[i + 1..j]) && LngPart(s[j..])
  }

  /** The whole string matches the anchored pattern. */
  ghost predicate PatternMatch(s: string) {
    exists i: nat, j: nat | i < j <= |s| :: SplitAt(s, i, j)
  }

  /** First index at or after `from` that does not hold a blank. */
  function SkipSpace(s: string, from: nat): (j: nat)
    requires from <= |s|
    ensures from <= j <= |s|
    ensures AllSpace(s[from..j])
    ensures j < |s| ==> !IsSpace(s[j])
    decreases |s| - from
  {
    if from < |s| && IsSpace(s[from]) then SkipSpace(s, from + 1) else from
  }

  /** The recognizer: split at the first comma, skip blanks, test both parts. */
  predicate MatchesLatLong(s: string) {
    var i := JsValues.IndexOf(s, ',');
    i < |s| && LatPart(s[..i]) && LngPart(s[SkipSpace(s, i + 1)..])
  }

  /** Characters a latitude or longitude part can hold: no comma, no blank. */
  predicate NumChar(c: char) { IsDigit(c) || IsSign(c) || c == '.' }

  lemma FractionChars(s: string)
    requires Fraction(s) || ZeroFraction(s)
    ensures forall k :: 0 <= k < |s| ==> NumChar(s[k])
  {
    forall k | 0 <= k < |s| ensures NumChar(s[k]) {
      if k > 0 { assert s[k] == s[1..][k - 1]; }
    }
  }

  lemma BodyChars(t: string, n: nat)
    requires n <= |t| && (forall k :: 0 <= k < n ==> NumChar(t[k]))
    requires Fraction(t[n..]) || ZeroFraction(t[n..])
    ensures forall k :: 0 <= k < |t| ==> NumChar(t[k])
  {
    FractionChars(t[n..]);
    forall k | n <= k < |t| ensures NumChar(t[k]) { assert t[k] == t[n..][k - n]; }
  }

  lemma LatPartChars(a: string)
    requires LatPart(a)
    ensures forall k :: 0 <= k < |a| ==> NumChar(a[k])
  {
    var t, o := a, 0;
    if !LatBody(a) { t, o := a[1..], 1; }
    if |t| >= 1 && IsDigit(t[0]) && Fraction(t[1..]) { BodyChars(t, 1); }
    else if |t| >= 2 && '1' <= t[0] <= '8' && IsDigit(t[1]) && Fraction(t[2..]) { BodyChars(t, 2); }
    else { BodyChars(t, 2); }
    forall k | o <= k < |a| ensures NumChar(a[k]) { assert a[k] == t[k - o]; }
  }

  lemma LngPartChars(b: string)
    requires LngPart(b)
    ensures forall k :: 0 <= k < |b| ==> NumChar(b[k])
  {
    var t, o := b, 0;
    if !LngBody(b) { t, o := b[1..], 1; }
    if |t| >= 3 && t[0] == '1' && t[1] == '8' && t[2] == '0' && ZeroFraction(t[3..]) { BodyChars(t, 3); }
    else if |t| >= 3 && t[0] == '1' && '0' <= t[1] <= '7' && IsDigit(t[2]) && Fraction(t[3..]) { BodyChars(t, 3); }
    else if |t| >= 2 && '1' <= t[0] <= '9' && IsDigit(t[1]) && Fraction(t[2..]) { BodyChars(t, 2); }
    else { BodyChars(t, 1); }
    forall k | o <= k < |b| ensures NumChar(b[k]) { assert b[k] == t[k - o]; }
  }

  lemma LngPartStart(b: string)
    requires LngPart(b)
    ensures |b| >= 1 && !IsSpace(b[0])
  {
  }

  /** The first comma of `s` is the one that ends a latitude part. */
  lemma FirstCommaAfterLatitude(s: string, i: nat)
    requires i < |s| && s[i] == ',' && LatPart(s[..i])
    ensures JsValues.IndexOf(s, ',') == i
  {
    LatPartChars(s[..i]);
    assert forall k :: 0 <= k < i ==> s[k] == s[..i][k];
  }

  /** Skipping blanks from `from` stops at the first non-blank `j`. */
  lemma SkipSpaceStops(s: string, from: nat, j: nat)
    requires from <= j <= |s| && AllSpace(s[from..j]) && (j < |s| ==> !IsSpace(s[j]))
    ensures SkipSpace(s, from) == j
  {
  }

  lemma MatchesToPattern(s: string)
    requires MatchesLatLong(s)
    ensures PatternMatch(s)
  {
    var i := JsValues.IndexOf(s, ',');
    var j := SkipSpace(s, i + 1);
    LngPartStart(s[j..]);
    assert i < j <= |s| && s[i] == ',';
    assert SplitAt(s, i, j);
  }

  lemma PatternToMatches(s: string, i: nat, j: nat)
    requires i < j <= |s| && SplitAt(s, i, j)
    ensures MatchesLatLong(s)
  {
    FirstCommaAfterLatitude(s, i);
    LngPartStart(s[j..]);
    assert s[j] == s[j..][0];
    SkipSpaceStops(s, i + 1, j);
  }

  /** The recognizer accepts exactly the strings the pattern matches. */
  lemma MatchesIffPattern(s: string)
    ensures MatchesLatLong(s) <==> PatternMatch(s)
  {
    if MatchesLatLong(s) {
      MatchesToPattern(s);
    }
    if PatternMatch(s) {
      var i: nat, j: nat :| i < j <= |s| && SplitAt(s, i, j);
      PatternToMatches(s, i, j);
    }
  }

  // ---------------------------------------------------------------------
  // Which numbers the pattern admits

  function DigitValue(c: char): (v: nat)
    requires IsDigit(c)
  {
    c as int - '0' as int
  }

  /** The value of a decimal digit string. */
  function Value(d: string): (v: nat)
    requires AllDigits(d)
  {
    if d == [] then 0 else Value(d[..|d| - 1]) * 10 + DigitValue(d[|d| - 1])
  }

  function Pow10(n: nat): (p: nat) {
    if n == 0 then 1 else 10 * Pow10(n - 1)
  }

  /** Number of digits `t` starts with. */
  function LeadingDigits(t: string): (k: nat)
    ensures k <= |t| && AllDigits(t[..k])
    ensures k < |t| ==> !IsDigit(t[k])
  {
    if t != [] && IsDigit(t[0]) then
      var k := 1 + LeadingDigits(t[1..]);
      assert forall m :: 1 <= m < k ==> t[..k][m] == t[1..][..k - 1][m - 1];
      k
    else 0
  }

  /** A decimal integer without leading zeros. */
  predicate Canonical(d: string) {
    |d| >= 1 && AllDigits(d) && (|d| == 1 || d[0] != '0')
  }

  /** `t` is an unsigned decimal numeral, integer part without leading zeros,
      optional fraction, whose value is at most `limit`; at `limit` itself
      every fractional digit is zero. */
  predicate NumeralWithin(t: string, limit: nat) {
    var k := LeadingDigits(t);
    Canonical(t[..k])
    && ((Value(t[..k]) < limit && Fraction(t[k..]))
        || (Value(t[..k]) == limit && ZeroFraction(t[k..])))
  }

  /** `NumeralWithin` after an optional sign. */
  predicate SignedWithin(a: string, limit: nat) {
    NumeralWithin(a, limit) || (|a| >= 1 && IsSign(a[0]) && NumeralWithin(a[1..], limit))
  }

  lemma LeadingDigitsAt(t: string, n: nat)
    requires n <= |t| && AllDigits(t[..n])
    requires Fraction(t[n..]) || ZeroFraction(t[n..])
    ensures LeadingDigits(t) == n
  {
    var k := LeadingDigits(t);
    assert n < |t| ==> t[n] == t[n..][0];
    DigitsPrefix(t, n);
    DigitsPrefix(t, k);
  }

  lemma DigitsPrefix(t: string, n: nat)
    requires n <= |t| && AllDigits(t[..n])
    ensures forall m :: 0 <= m < n ==> IsDigit(t[m])
  {
    forall m | 0 <= m < n ensures IsDigit(t[m]) { assert t[m] == t[..n][m]; }
  }

  lemma {:induction false} ValueAtLeast(d: string)
    requires |d| >= 1 && AllDigits(d) && d[0] != '0'
    ensures Value(d) >= Pow10(|d| - 1)
  {
    var p := d[..|d| - 1];
    assert forall m :: 0 <= m < |p| ==> p[m] == d[m];
    if |d| > 1 {
      ValueAtLeast(p);
      assert Value(d) == Value(p) * 10 + DigitValue(d[|d| - 1]);
      assert Pow10(|d| - 1) == 10 * Pow10(|p| - 1);
    } else {
      assert p == [];
    }
  }

  lemma ValueOfTwo(d: string)
    requires |d| == 2 && AllDigits(d)
    ensures Value(d) == 10 * DigitValue(d[0]) + DigitValue(d[1])
  {
    var p := d[..1];
    assert Value(d) == Value(p) * 10 + DigitValue(d[1]);
    assert p[..0] == [];
    assert Value(p) == Value(p[..0]) * 10 + DigitValue(p[0]);
  }

  lemma ValueOfThree(d: string)
    requires |d| == 3 && AllDigits(d)
    ensures Value(d) == 100 * DigitValue(d[0]) + 10 * DigitValue(d[1]) + DigitValue(d[2])
  {
    ValueOfTwo(d[..2]);
  }

  /** Numerals of four or more digits exceed every limit the pattern uses. */
  lemma LongNumeral(d: string, n: nat)
    requires Canonical(d) && |d| >= n >= 2
    ensures Value(d) >= Pow10(n - 1)
  {
    ValueAtLeast(d);
    PowMonotone(n - 1, |d| - 1);
  }

  lemma {:induction false} PowMonotone(m: nat, n: nat)
    requires m <= n
    ensures Pow10(m) <= Pow10(n)
  {
    if m < n { PowMonotone(m, n - 1); }
  }

  lemma ZeroFractionIsFraction(f: string)
    requires ZeroFraction(f)
    ensures Fraction(f)
  {
  }

  lemma ValueOfOne(d: string)
    requires |d| == 1 && AllDigits(d)
    ensures Value(d) == DigitValue(d[0])
  {
    assert d[..0] == [];
  }

  /** Facts about the integer part `t[..k]` and the rest `t[k..]` of a numeral. */
  lemma NumeralParts(t: string, k: nat)
    requires k == LeadingDigits(t)
    ensures forall m :: 0 <= m < k ==> t[..k][m] == t[m]
  {
  }

  lemma LatBodyWithin(t: string)
    requires LatBody(t)
    ensures NumeralWithin(t, 90)
  {
    if |t| >= 1 && IsDigit(t[0]) && Fraction(t[1..]) {
      LeadingDigitsAt(t, 1);
      ValueOfOne(t[..1]);
    } else if |t| >= 2 && '1' <= t[0] <= '8' && IsDigit(t[1]) && Fraction(t[2..]) {
      LeadingDigitsAt(t, 2);
      ValueOfTwo(t[..2]);
    } else {
      LeadingDigitsAt(t, 2);
      ValueOfTwo(t[..2]);
    }
  }

  lemma WithinLatBody(t: string)
    requires NumeralWithin(t, 90)
    ensures LatBody(t)
  {
    var k := LeadingDigits(t);
    NumeralParts(t, k);
    if k == 1 {
      ValueOfOne(t[..1]);
      assert IsDigit(t[0]) && Fraction(t[1..]);
    } else if k == 2 {
      ValueOfTwo(t[..2]);
      if Value(t[..k]) < 90 {
        assert '1' <= t[0] <= '8' && IsDigit(t[1]) && Fraction(t[2..]);
      } else {
        assert t[0] == '9' && t[1] == '0' && ZeroFraction(t[2..]);
      }
    } else {
      LongNumeral(t[..k], 3);
    }
  }

  /** The latitude alternative admits exactly the numerals from 0 to 90. */
  lemma LatitudeRange(t: string)
    ensures LatBody(t) <==> NumeralWithin(t, 90)
  {
    if LatBody(t) { LatBodyWithin(t); }
    if NumeralWithin(t, 90) { WithinLatBody(t); }
  }

  lemma LngBodyWithin(t: string)
    requires LngBody(t)
    ensures NumeralWithin(t, 180)
  {
    if |t| >= 3 && t[0] == '1' && t[1] == '8' && t[2] == '0' && ZeroFraction(t[3..]) {
      LeadingDigitsAt(t, 3);
      ValueOfThree(t[..3]);
    } else if |t| >= 3 && t[0] == '1' && '0' <= t[1] <= '7' && IsDigit(t[2]) && Fraction(t[3..]) {
      LeadingDigitsAt(t, 3);
      ValueOfThree(t[..3]);
    } else if |t| >= 2 && '1' <= t[0] <= '9' && IsDigit(t[1]) && Fraction(t[2..]) {
      LeadingDigitsAt(t, 2);
      ValueOfTwo(t[..2]);
    } else {
      LeadingDigitsAt(t, 1);
      ValueOfOne(t[..1]);
    }
  }

  lemma WithinLngBody(t: string)
    requires NumeralWithin(t, 180)
    ensures LngBody(t)
  {
    var k := LeadingDigits(t);
    NumeralParts(t, k);
    if k == 1 {
      ValueOfOne(t[..1]);
      assert IsDigit(t[0]) && Fraction(t[1..]);
    } else if k == 2 {
      ValueOfTwo(t[..2]);
      assert '1' <= t[0] <= '9' && IsDigit(t[1]) && Fraction(t[2..]);
    } else if k == 3 {
      ValueOfThree(t[..3]);
      if Value(t[..k]) < 180 {
        assert t[0] == '1' && '0' <= t[1] <= '7' && IsDigit(t[2]) && Fraction(t[3..]);
      } else {
        assert t[0] == '1' && t[1] == '8' && t[2] == '0' && ZeroFraction(t[3..]);
      }
    } else {
      LongNumeral(t[..k], 4);
    }
  }

  /** The longitude alternative admits exactly the numerals from 0 to 180. */
  lemma LongitudeRange(t: string)
    ensures LngBody(t) <==> NumeralWithin(t, 180)
  {
    if LngBody(t) { LngBodyWithin(t); }
    if NumeralWithin(t, 180) { WithinLngBody(t); }
  }

  lemma LatPartWithin(a: string)
    ensures LatPart(a) <==> SignedWithin(a, 90)
  {
    LatitudeRange(a);
    if |a| >= 1 { LatitudeRange(a[1..]); }
  }

  lemma LngPartWithin(b: string)
    ensures LngPart(b) <==> SignedWithin(b, 180)
  {
    LongitudeRange(b);
    if |b| >= 1 { LongitudeRange(b[1..]); }
  }

  /** `s` without its leading blanks. */
  function TrimStart(s: string): (r: string)
    ensures |r| <= |s| && AllSpace(s[..|s| - |r|]) && s[|s| - |r|..] == r
    ensures r != [] ==> !IsSpace(r[0])
  {
    s[SkipSpace(s, 0)..]
  }

  /** With a latitude in front, the recognizer reads the longitude with its
      leading blanks skipped. */
  lemma LongitudeAfterComma(lat: string, lng: string)
    requires LatPart(lat)
    ensures MatchesLatLong(lat + ", " + lng) <==> LngPart(TrimStart(lng))
  {
    var s := lat + ", " + lng;
    var n := |lat|;
    assert s[..n] == lat;
    FirstCommaAfterLatitude(s, n);
    var t := TrimStart(lng);
    var J := |s| - |t|;
    assert s[J..] == t;
    assert forall m :: n + 1 <= m < J ==> (m == n + 1 || s[m] == lng[..|lng| - |t|][m - n - 2]);
    SkipSpaceStops(s, n + 1, J);
  }

  /** Without a latitude in front, no longitude can make the string match. */
  lemma NoLatitudeNoMatch(lat: string, lng: string)
    requires !LatPart(lat)
    ensures !MatchesLatLong(lat + ", " + lng)
  {
    var s := lat + ", " + lng;
    var n := |lat|;
    var i := JsValues.IndexOf(s, ',');
    assert s[n] == ',';
    if i == n {
      assert s[..i] == lat;
    } else if MatchesLatLong(s) {
      LngPartChars(s[SkipSpace(s, i + 1)..]);
    }
  }

  /** `"<lat>, <lng>"` passes the coordinate check exactly when `lat` is a
      signed numeral in [-90, 90] and `lng`, after any leading blanks, a
      signed numeral in [-180, 180]. */
  lemma CoordinatesAccepted(lat: string, lng: string)
    ensures MatchesLatLong(lat + ", " + lng)
            <==> SignedWithin(lat, 90) && SignedWithin(TrimStart(lng), 180)
  {
    LatPartWithin(lat);
    LngPartWithin(TrimStart(lng));
    if LatPart(lat) {
      LongitudeAfterComma(lat, lng);
    } else {
      NoLatitudeNoMatch(lat, lng);
    }
  }

  /** A numeral with `n` integer digits followed by a fraction. */
  lemma NumeralValue(t: string, n: nat)
    requires 1 <= n <= 3 && n <= |t| && AllDigits(t[..n])
    requires Fraction(t[n..]) || ZeroFraction(t[n..])
    ensures LeadingDigits(t) == n
    ensures n == 1 ==> Value(t[..n]) == DigitValue(t[0])
    ensures n == 2 ==> Value(t[..n]) == 10 * DigitValue(t[0]) + DigitValue(t[1])
    ensures n == 3 ==> Value(t[..n]) == 100 * DigitValue(t[0]) + 10 * DigitValue(t[1]) + DigitValue(t[2])
  {
    LeadingDigitsAt(t, n);
    if n == 1 { ValueOfOne(t[..n]); }
    if n == 2 { ValueOfTwo(t[..n]); }
    if n == 3 { ValueOfThree(t[..n]); }
  }

  lemma Accepted(lat: string, lng: string)
    requires SignedWithin(lat, 90) && SignedWithin(TrimStart(lng), 180)
    ensures MatchesLatLong(lat + ", " + lng)
  {
    CoordinatesAccepted(lat, lng);
  }

  lemma Rejected(lat: string, lng: string)
    requires !SignedWithin(lat, 90)
    ensures !MatchesLatLong(lat + ", " + lng)
  {
    CoordinatesAccepted(lat, lng);
  }

  lemma RejectedLongitude(lat: string, lng: string)
    requires !SignedWithin(TrimStart(lng), 180)
    ensures !MatchesLatLong(lat + ", " + lng)
  {
    CoordinatesAccepted(lat, lng);
  }

  /** The documented latitude 42.3507282 lies within 90. */
  lemma ExampleLatitude()
    ensures SignedWithin("42.3507282", 90)
  {
    NumeralValue("42.3507282", 2);
    assert "42.3507282"[..2] == "42";
  }

  /** A string that starts with a non-blank is its own `TrimStart`. */
  lemma TrimStartKeeps(s: string)
    requires |s| >= 1 && !IsSpace(s[0])
    ensures TrimStart(s) == s
  {
    assert SkipSpace(s, 0) == 0;
  }

  /** A two-digit integer part below `limit`, then a fraction. */
  lemma TwoDigitsWithin(t: string, limit: nat)
    requires |t| >= 2 && '1' <= t[0] <= '9' && IsDigit(t[1]) && Fraction(t[2..])
    requires 10 * DigitValue(t[0]) + DigitValue(t[1]) < limit
    ensures NumeralWithin(t, limit)
  {
    NumeralValue(t, 2);
  }

  /** `s` is a dot followed by the digits `d`. */
  lemma DigitsFraction(d: string)
    requires |d| >= 1 && AllDigits(d)
    ensures Fraction(['.'] + d)
  {
    assert (['.'] + d)[1..] == d;
  }

  lemma AllDigitsConcat(x: string, y: string)
    requires AllDigits(x) && AllDigits(y)
    ensures AllDigits(x + y)
  {
    forall k | |x| <= k < |x + y| ensures IsDigit((x + y)[k]) { assert (x + y)[k] == y[k - |x|]; }
  }

  /** The fractional part of the documented longitude. */
  lemma ExampleFraction()
    ensures Fraction(['.'] + ("1321270" + "9999999"))
  {
    assert AllDigits("1321270") && AllDigits("9999999");
    AllDigitsConcat("1321270", "9999999");
    DigitsFraction("1321270" + "9999999");
  }

  /** The documented longitude, assembled from its parts, lies within 180. */
  lemma ExampleLongitudeParts()
    ensures SignedWithin(['-'] + ("71" + (['.'] + ("1321270" + "9999999"))), 180)
  {
    var t := "71" + (['.'] + ("1321270" + "9999999"));
    ExampleFraction();
    assert t[2..] == ['.'] + ("1321270" + "9999999");
    TwoDigitsWithin(t, 180);
    assert (['-'] + t)[1..] == t;
  }

  lemma ExampleLongitudeSpelled()
    ensures ['-'] + ("71" + (['.'] + ("1321270" + "9999999"))) == "-71.13212709999999"
  {
  }

  /** The documented longitude -71.13212709999999 lies within 180. */
  lemma ExampleLongitude()
    ensures SignedWithin(TrimStart("-71.13212709999999"), 180)
  {
    ExampleLongitudeParts();
    ExampleLongitudeSpelled();
    TrimStartKeeps("-71.13212709999999");
  }

  /** The coordinates used as the machines' input examples pass the check. */
  lemma DocumentedCoordinates()
    ensures MatchesLatLong("42.3507282" + ", " + "-71.13212709999999")
  {
    ExampleLatitude();
    ExampleLongitude();
    Accepted("42.3507282", "-71.13212709999999");
  }

  lemma NinetyZero()
    ensures SignedWithin("90.0", 90)
  {
    NumeralValue("90.0", 2);
    assert "90.0"[..2] == "90" && "90.0"[2..] == ".0";
  }

  lemma OneEightyZero()
    ensures SignedWithin(TrimStart("180.000"), 180)
  {
    TrimStartKeeps("180.000");
    assert NumeralWithin("180.000", 180) by {
      NumeralValue("180.000", 3);
      assert "180.000"[..3] == "180" && "180.000"[3..] == ".000";
    }
  }

  /** 90 and 180 pass with an all-zero fraction. */
  lemma BoundaryAccepted()
    ensures MatchesLatLong("90.0" + ", " + "180.000")
  {
    NinetyZero();
    OneEightyZero();
    Accepted("90.0", "180.000");
  }

  lemma NinetyHalf()
    ensures !SignedWithin("90.5", 90)
  {
    NumeralValue("90.5", 2);
    assert "90.5"[..2] == "90" && "90.5"[2..] == ".5";
    assert !ZeroFraction(".5") by { assert ".5"[1] != '0'; }
  }

  lemma NinetyOne()
    ensures !SignedWithin("91", 90)
  {
    NumeralValue("91", 2);
    assert "91"[..2] == "91";
  }

  lemma LeadingZero()
    ensures !SignedWithin("05", 90)
  {
    LeadingDigitsAt("05", 2);
    assert "05"[..2] == "05";
  }

  /** Latitudes beyond 90, and integer parts with a leading zero, fail. */
  lemma LatitudeBeyondRejected()
    ensures !MatchesLatLong("90.5" + ", " + "0")
    ensures !MatchesLatLong("91" + ", " + "0")
    ensures !MatchesLatLong("05" + ", " + "0")
  {
    NinetyHalf();
    Rejected("90.5", "0");
    NinetyOne();
    Rejected("91", "0");
    LeadingZero();
    Rejected("05", "0");
  }

  lemma OneEightyTenth()
    ensures !SignedWithin(TrimStart("180.1"), 180)
  {
    TrimStartKeeps("180.1");
    assert !NumeralWithin("180.1", 180) by {
      NumeralValue("180.1", 3);
      assert "180.1"[..3] == "180" && "180.1"[3..] == ".1";
      assert !ZeroFraction(".1") by { assert ".1"[1] != '0'; }
    }
  }

  /** A longitude beyond 180 fails. */
  lemma LongitudeBeyondRejected()
    ensures !MatchesLatLong("0" + ", " + "180.1")
  {
    OneEightyTenth();
    RejectedLongitude("0", "180.1");
  }
}

/**
 * The few java.lang.String operations the generator relies on, over `seq<char>`.
 * Only their results on the characters the code inspects are modelled.
 */
module JavaStrings {
  import opened Wrappers

  /** `s.startsWith(prefix)`. */
  predicate StartsWith(s: string, prefix: string) {
    |prefix| <= |s| && s[..|prefix|] == prefix
  }

  /** Characters that `String.trim()` strips: every code point up to and including U+0020. */
  predicate IsTrimmable(c: char) {
    c <= ' '
  }

  /** The index of the first character of `s` that `String.trim()` keeps, or |s|. */
  function FirstKept(s: string, from: nat): (k: nat)
    requires from <= |s|
    ensures from <= k <= |s|
    ensures forall i :: from <= i < k ==> IsTrimmable(s[i])
    ensures k < |s| ==> !IsTrimmable(s[k])
    decreases |s| - from
  {
    if from == |s| || !IsTrimmable(s[from]) then from else FirstKept(s, from + 1)
  }

  /** One past the index of the last character of `s[..upTo]` that `String.trim()` keeps. */
  function LastKept(s: string, upTo: nat): (k: nat)
    requires upTo <= |s|
    ensures k <= upTo
    ensures forall i :: k <= i < upTo ==> IsTrimmable(s[i])
    ensures k > 0 ==> !IsTrimmable(s[k - 1])
  {
    if upTo == 0 || !IsTrimmable(s[upTo - 1]) then upTo else LastKept(s, upTo - 1)
  }

  /** `s.trim()`: drops every leading and trailing character up to U+0020. */
  function Trim(s: string): (r: string)
    ensures |r| <= |s|
    ensures r != [] ==> !IsTrimmable(r[0]) && !IsTrimmable(r[|r| - 1])
    ensures exists i, j :: 0 <= i <= j <= |s| && r == s[i..j]
    ensures r == [] <==> forall k :: 0 <= k < |s| ==> IsTrimmable(s[k])
  {
    var i := FirstKept(s, 0);
    var j := LastKept(s, |s|);
    if j <= i then assert s[0..0] == []; [] else s[i..j]
  }

  /**
   * Case-insensitive equality of two characters, as `String.equalsIgnoreCase` checks it,
   * restricted to the ASCII letters (the only ones the generator ever compares against).
   */
  predicate SameIgnoringCase(a: char, b: char) {
    a == b || LowerAscii(a) == LowerAscii(b)
  }

  function LowerAscii(c: char): char {
    if 'A' <= c <= 'Z' then (c as int - 'A' as int + 'a' as int) as char else c
  }

  /** `a.equalsIgnoreCase(b)` for a non-null `b`; false when `a` is null. */
  predicate EqualsIgnoreCase(a: string, b: string) {
    |a| == |b| && forall i :: 0 <= i < |a| ==> SameIgnoringCase(a[i], b[i])
  }

  /** `s.indexOf(c, from)`: the first position at or after `from` holding `c`, else -1. */
  function IndexOf(s: string, c: char, from: int): (r: int)
    ensures r == -1 || (0 <= from <= r < |s| || (from < 0 && 0 <= r < |s|))
    ensures r != -1 ==> s[r] == c
    ensures r != -1 ==> forall i :: (if from < 0 then 0 else from) <= i < r ==> s[i] != c
    ensures r == -1 ==> forall i :: (if from < 0 then 0 else from) <= i < |s| ==> s[i] != c
    decreases |s| - from
  {
    if from < 0 then IndexOf(s, c, 0)
    else if from >= |s| then -1
    else if s[from] == c then from
    else IndexOf(s, c, from + 1)
  }

  /** `s.regionMatches(0, other, 0, len)` for `len >= 0`. */
  predicate RegionMatches(s: string, other: string, len: nat) {
    len <= |s| && len <= |other| && s[..len] == other[..len]
  }

  /** `s.replaceAll("/", ".")` (a literal one-character pattern). */
  function ReplaceChar(s: string, from: char, to: char): (r: string)
    ensures |r| == |s|
    ensures forall i :: 0 <= i < |s| ==> r[i] == (if s[i] == from then to else s[i])
  {
    seq(|s|, i requires 0 <= i < |s| => if s[i] == from then to else s[i])
  }

  /** `String.trim()` leaves a string alone whose ends it would not strip. */
  lemma TrimKeepsTrimmed(s: string)
    requires s != [] ==> !IsTrimmable(s[0]) && !IsTrimmable(s[|s| - 1])
    ensures Trim(s) == s
  {
    if s != [] {
      assert FirstKept(s, 0) == 0;
      assert LastKept(s, |s|) == |s|;
    }
  }

  /** Trimming twice trims no further than trimming once. */
  lemma TrimIdempotent(s: string)
    ensures Trim(Trim(s)) == Trim(s)
  {
    TrimKeepsTrimmed(Trim(s));
  }

  /** The characters the regular-expression class `\s` matches: space, tab, LF, VT, FF and CR. */
  predicate IsRegexSpace(c: char) {
    c == ' ' || c == '\t' || c == '\n' || c as int == 0x0B || c as int == 0x0C || c == '\r'
  }

  /** No two neighbouring characters are both `\s`, and the only `\s` present is the blank. */
  predicate Collapsed(s: string) {
    (forall i :: 0 <= i < |s| && IsRegexSpace(s[i]) ==> s[i] == ' ') &&
    (forall i :: 0 <= i < |s| - 1 ==> !(IsRegexSpace(s[i]) && IsRegexSpace(s[i + 1])))
  }

  /** `s` without its leading run of `\s` characters. */
  function DropSpaces(s: string): (r: string)
    ensures |r| <= |s| && r == s[|s| - |r|..]
    ensures r != [] ==> !IsRegexSpace(r[0])
    ensures forall i :: 0 <= i < |s| - |r| ==> IsRegexSpace(s[i])
  {
    if s != [] && IsRegexSpace(s[0]) then DropSpaces(s[1..]) else s
  }

  /** `s.replaceAll("\\s+", " ")`: every maximal run of `\s` characters becomes one blank. */
  function CollapseWhitespace(s: string): (r: string)
    ensures Collapsed(r)
    ensures r != [] && s != [] ==> (IsRegexSpace(r[0]) <==> IsRegexSpace(s[0]))
    ensures r == [] <==> s == []
    decreases |s|
  {
    if s == [] then []
    else if IsRegexSpace(s[0]) then [' '] + CollapseWhitespace(DropSpaces(s))
    else [s[0]] + CollapseWhitespace(s[1..])
  }

  lemma CollapsedTail(s: string)
    requires Collapsed(s) && s != []
    ensures Collapsed(s[1..])
  {
    var rest := s[1..];
    forall i | 0 <= i < |rest| - 1 ensures !(IsRegexSpace(rest[i]) && IsRegexSpace(rest[i + 1])) {
      assert rest[i] == s[i + 1] && rest[i + 1] == s[i + 2];
    }
  }

  /** A string that is already collapsed is left alone. */
  lemma {:induction false} CollapseKeepsCollapsed(s: string)
    requires Collapsed(s)
    ensures CollapseWhitespace(s) == s
    decreases |s|
  {
    if s != [] {
      var rest := s[1..];
      CollapsedTail(s);
      CollapseKeepsCollapsed(rest);
      if IsRegexSpace(s[0]) {
        assert s[0] == ' ';
        assert rest == [] || !IsRegexSpace(rest[0]);
        assert DropSpaces(rest) == rest;
        assert CollapseWhitespace(s) == [' '] + rest;
      } else {
        assert CollapseWhitespace(s) == [s[0]] + rest;
      }
      assert s == [s[0]] + rest;
    }
  }

  /** A slice of a collapsed string is collapsed. */
  lemma CollapsedSlice(s: string, i: nat, j: nat)
    requires Collapsed(s) && i <= j <= |s|
    ensures Collapsed(s[i..j])
  {
    var t := s[i..j];
    forall k | 0 <= k < |t| - 1 ensures !(IsRegexSpace(t[k]) && IsRegexSpace(t[k + 1])) {
      assert t[k] == s[i + k] && t[k + 1] == s[i + k + 1];
    }
  }

  /**
   * Where the runs of the ten decimal digits (Unicode category Nd) start in the Basic
   * Multilingual Plane, the range of Java's `char`: ASCII, Arabic-Indic, the Indic scripts,
   * Thai, Tibetan, Myanmar, Khmer, ..., and the fullwidth forms.
   */
  const DigitZeros: seq<int> := [0x0030, 0x0660, 0x06F0, 0x07C0, 0x0966, 0x09E6, 0x0A66, 0x0AE6, 0x0B66, 0x0BE6,
                                 0x0C66, 0x0CE6, 0x0D66, 0x0DE6, 0x0E50, 0x0ED0, 0x0F20, 0x1040, 0x1090, 0x17E0,
                                 0x1810, 0x1946, 0x19D0, 0x1A80, 0x1A90, 0x1B50, 0x1BB0, 0x1C40, 0x1C50, 0xA620,
                                 0xA8D0, 0xA900, 0xA9D0, 0xA9F0, 0xAA50, 0xABF0, 0xFF10]

  /** The value of `c` in the runs from the `k`th on (they ascend), -1 when none holds it. */
  function DigitFrom(c: int, k: nat): (d: int)
    ensures -1 <= d <= 9
    decreases |DigitZeros| - k
  {
    if k >= |DigitZeros| || c < DigitZeros[k] then -1
    else if c < DigitZeros[k] + 10 then c - DigitZeros[k]
    else DigitFrom(c, k + 1)
  }

  /** `Character.digit(c, 10)`: the value of a decimal digit of any script, -1 for anything else. */
  function DecimalDigit(c: char): (d: int)
    ensures -1 <= d <= 9
    ensures '0' <= c <= '9' ==> d == c as int - '0' as int
  {
    DigitFrom(c as int, 0)
  }

  /** The digit characters `Integer.valueOf` accepts. */
  predicate IsDigit(c: char) {
    DecimalDigit(c) >= 0
  }

  function DigitsValue(ds: string): (n: nat)
    requires forall i :: 0 <= i < |ds| ==> IsDigit(ds[i])
  {
    if ds == [] then 0
    else
      assert IsDigit(ds[|ds| - 1]);
      DigitsValue(ds[..|ds| - 1]) * 10 + DecimalDigit(ds[|ds| - 1])
  }

  const MinInt32: int := -0x8000_0000
  const MaxInt32: int := 0x7FFF_FFFF

  /**
   * `Integer.valueOf(s)`: an optional sign followed by at least one digit, whose value fits
   * in 32 bits; anything else, null included, throws `NumberFormatException`.
   */
  function ValueOf(s: Option<string>): (r: Result<int>)
    ensures r.Success? ==> MinInt32 <= r.value <= MaxInt32
    ensures s.None? || s.value == [] ==> r.Failure?
    ensures s.Some? && s.value != [] && (forall i :: 0 <= i < |s.value| ==> IsDigit(s.value[i])) ==>
              r == (if DigitsValue(s.value) <= MaxInt32 then Success(DigitsValue(s.value)) else Failure("NumberFormatException"))
  {
    if s.None? || s.value == [] then Failure("NumberFormatException")
    else
      var str := s.value;
      var signed := str[0] == '-' || str[0] == '+';
      var digits := if signed then str[1..] else str;
      if digits == [] || exists i :: 0 <= i < |digits| && !IsDigit(digits[i]) then Failure("NumberFormatException")
      else
        var magnitude: int := DigitsValue(digits);
        var n: int := if str[0] == '-' then -magnitude else magnitude;
        if MinInt32 <= n <= MaxInt32 then Success(n) else Failure("NumberFormatException")
  }

  /** `Integer.toString(n)` for `n >= 0`: its decimal digits, without leading zeros. */
  function DecimalString(n: nat): (r: string)
    ensures r != [] && forall i :: 0 <= i < |r| ==> IsDigit(r[i])
  {
    if n < 10 then [('0' as int + n) as char] else DecimalString(n / 10) + [('0' as int + n % 10) as char]
  }

  lemma {:induction false} DecimalStringValue(n: nat)
    ensures DigitsValue(DecimalString(n)) == n
  {
    var r := DecimalString(n);
    if n >= 10 {
      DecimalStringValue(n / 10);
      assert r[..|r| - 1] == DecimalString(n / 10);
    }
  }

  /** `Integer.valueOf(Integer.toString(n)) == n` for every 32-bit integer. */
  lemma ValueOfDecimalString(n: int)
    requires MinInt32 <= n <= MaxInt32
    ensures n >= 0 ==> ValueOf(Some(DecimalString(n))) == Success(n)
    ensures n < 0 ==> ValueOf(Some("-" + DecimalString(-n))) == Success(n)
  {
    if n >= 0 {
      DecimalStringValue(n);
    } else {
      DecimalStringValue(-n);
      assert ("-" + DecimalString(-n))[1..] == DecimalString(-n);
    }
  }

  /** Digits of other scripts read as their values: Arabic-Indic three, and Devanagari four and two. */
  lemma OtherScriptDigits()
    ensures ValueOf(Some(['\U{0663}'])) == Success(3)
    ensures ValueOf(Some(['-', '\U{096A}', '\U{0968}'])) == Success(-42)
  {
    OtherScriptDigitValues();
    var s := ['-', '\U{096A}', '\U{0968}'];
    assert s[1..] == ['\U{096A}', '\U{0968}'];
    assert DigitsValue(s[1..]) == 42 by {
      assert s[1..][..1] == ['\U{096A}'];
      assert ['\U{096A}'][..0] == [];
    }
  }

  lemma OtherScriptDigitValues()
    ensures DecimalDigit('\U{0663}') == 3 && DecimalDigit('\U{096A}') == 4 && DecimalDigit('\U{0968}') == 2
  {
    assert DigitFrom(0x0663, 0) == DigitFrom(0x0663, 1) == 3;
    assert DigitFrom(0x096A, 0) == DigitFrom(0x096A, 1) == DigitFrom(0x096A, 2) == DigitFrom(0x096A, 3) ==
           DigitFrom(0x096A, 4) == 4;
    assert DigitFrom(0x0968, 0) == DigitFrom(0x0968, 1) == DigitFrom(0x0968, 2) == DigitFrom(0x0968, 3) ==
           DigitFrom(0x0968, 4) == 2;
  }
}

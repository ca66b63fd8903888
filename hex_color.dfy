/**
 * `makeHexColor`: the six-digit hexadecimal colour string written for every port type,
 * built from `Integer.toHexString` of a 32-bit `int` and a fixed zero padding.
 */
module HexColor {

  /** Java's `int`. */
  type Int32 = x: int | -0x8000_0000 <= x < 0x8000_0000

  /** The 32-bit two's-complement pattern of `x`, read as unsigned (what `toHexString` prints). */
  function Unsigned(x: Int32): (u: nat)
    ensures u < 0x1_0000_0000
    ensures x >= 0 ==> u == x
    ensures x < 0 ==> u == x + 0x1_0000_0000
  {
    if x < 0 then x + 0x1_0000_0000 else x
  }

  predicate IsHexDigit(c: char) {
    '0' <= c <= '9' || 'a' <= c <= 'f'
  }

  predicate IsHexString(s: string) {
    forall i :: 0 <= i < |s| ==> IsHexDigit(s[i])
  }

  function DigitValue(c: char): (d: nat)
    requires IsHexDigit(c)
    ensures d < 16
  {
    if c <= '9' then c as int - '0' as int else c as int - 'a' as int + 10
  }

  /** The lower-case digit for `d`, as `Character.forDigit(d, 16)` writes it. */
  function DigitChar(d: nat): (c: char)
    requires d < 16
    ensures IsHexDigit(c) && DigitValue(c) == d
  {
    if d < 10 then ('0' as int + d) as char else ('a' as int + d - 10) as char
  }

  function Pow16(k: nat): (p: nat)
    ensures p >= 1
  {
    if k == 0 then 1 else 16 * Pow16(k - 1)
  }

  /** The number a string of hexadecimal digits denotes, most significant digit first. */
  function HexValue(s: string): (v: nat)
    requires IsHexString(s)
    ensures v < Pow16(|s|)
  {
    if s == [] then 0 else HexValue(s[..|s| - 1]) * 16 + DigitValue(s[|s| - 1])
  }

  /** `Integer.toHexString` of an unsigned value: the shortest lower-case digit string. */
  function ToHexString(u: nat): (s: string)
    ensures 1 <= |s|
    ensures IsHexString(s)
    ensures HexValue(s) == u
    ensures u > 0 ==> s[0] != '0'
    ensures u < Pow16(|s| - 1) ==> u == 0 && s == "0"
  {
    if u < 16 then [DigitChar(u)]
    else
      var prefix := ToHexString(u / 16);
      var s := prefix + [DigitChar(u % 16)];
      assert s[..|s| - 1] == prefix;
      s
  }

  /** `makeHexColor(color)`: `"000000".concat(hex).substring(hex.length())`, `hex` being `toHexString(color)`. */
  function MakeHexColor(color: Int32): (r: string)
    ensures |r| == 6
    ensures IsHexString(r)
    ensures HexValue(r) == Unsigned(color) % 0x100_0000
  {
    var hex := ToHexString(Unsigned(color));
    var padded := "000000" + hex;
    PaddingKeepsValue(hex);
    SuffixValue(padded, 6);
    assert Pow16(6) == 0x100_0000;
    padded[|hex|..]
  }

  /** Leading zeros do not change the value a digit string denotes. */
  lemma {:induction false} PaddingKeepsValue(hex: string)
    requires IsHexString(hex)
    ensures IsHexString("000000" + hex) && HexValue("000000" + hex) == HexValue(hex)
  {
    ZeroPrefixKeepsValue("000000", hex);
  }

  lemma {:induction false} ZeroPrefixKeepsValue(zeros: string, hex: string)
    requires forall i :: 0 <= i < |zeros| ==> zeros[i] == '0'
    requires IsHexString(hex)
    ensures IsHexString(zeros + hex) && HexValue(zeros + hex) == HexValue(hex)
    decreases |hex|
  {
    if hex == [] {
      assert zeros + hex == zeros;
      ZerosDenoteZero(zeros);
    } else {
      var init := hex[..|hex| - 1];
      ZeroPrefixKeepsValue(zeros, init);
      assert (zeros + hex)[..|zeros + hex| - 1] == zeros + init;
    }
  }

  lemma {:induction false} ZerosDenoteZero(zeros: string)
    requires forall i :: 0 <= i < |zeros| ==> zeros[i] == '0'
    ensures IsHexString(zeros) && HexValue(zeros) == 0
  {
    if zeros != [] {
      ZerosDenoteZero(zeros[..|zeros| - 1]);
    }
  }

  /** The last `k` digits of a string denote its value modulo 16^k. */
  lemma {:induction false} SuffixValue(s: string, k: nat)
    requires IsHexString(s) && k <= |s|
    ensures HexValue(s[|s| - k..]) == HexValue(s) % Pow16(k)
    decreases k
  {
    if k == 0 {
      assert s[|s|..] == [];
    } else {
      var init := s[..|s| - 1];
      SuffixValue(init, k - 1);
      var tail := s[|s| - k..];
      assert tail[..|tail| - 1] == init[|init| - (k - 1)..];
      ModShift(HexValue(init), DigitValue(s[|s| - 1]), Pow16(k - 1));
    }
  }

  /** (16a + d) mod 16p == 16 (a mod p) + d for a digit d. */
  lemma ModShift(a: nat, d: nat, p: nat)
    requires d < 16 && p >= 1
    ensures (a * 16 + d) % (16 * p) == (a % p) * 16 + d
  {
    var q := a / p;
    var r := a % p;
    assert a == p * q + r;
    assert a * 16 + d == (16 * p) * q + (r * 16 + d) by {
      assert a * 16 == (p * q) * 16 + r * 16;
      assert (p * q) * 16 == (16 * p) * q;
    }
    ModUnique(a * 16 + d, 16 * p, q, r * 16 + d);
  }

  /** The quotient and remainder of a Euclidean division are unique. */
  lemma ModUnique(x: int, m: int, q: int, r: int)
    requires m > 0 && 0 <= r < m && x == m * q + r
    ensures x % m == r
  {
    var q' := x / m;
    var r' := x % m;
    assert x == m * q' + r';
    if q' > q {
      MulMonotone(m, q + 1, q');
    } else if q' < q {
      MulMonotone(m, q' + 1, q);
    }
  }

  lemma MulMonotone(m: int, a: int, b: int)
    requires m > 0 && a <= b
    ensures m * a <= m * b
  {
    assert m * b - m * a == m * (b - a);
  }

  /** Two digit strings of the same length denoting the same value are the same string. */
  lemma {:induction false} SameValueSameDigits(s: string, t: string)
    requires IsHexString(s) && IsHexString(t) && |s| == |t|
    requires HexValue(s) == HexValue(t)
    ensures s == t
    decreases |s|
  {
    if s != [] {
      var n := |s| - 1;
      assert DigitValue(s[n]) == HexValue(s) % 16 == DigitValue(t[n]);
      assert HexValue(s[..n]) == HexValue(s) / 16 == HexValue(t[..n]);
      SameValueSameDigits(s[..n], t[..n]);
      assert s == s[..n] + [s[n]] && t == t[..n] + [t[n]];
      DigitValueInjective(s[n], t[n]);
    }
  }

  lemma DigitValueInjective(a: char, b: char)
    requires IsHexDigit(a) && IsHexDigit(b) && DigitValue(a) == DigitValue(b)
    ensures a == b
  {
  }

  /**
   * Two colours get the same string exactly when their low 24 bits agree: the alpha
   * byte of a packed ARGB colour is discarded, and nothing else is.
   */
  lemma SameColorIffSameLowBits(c1: Int32, c2: Int32)
    ensures MakeHexColor(c1) == MakeHexColor(c2)
        <==> Unsigned(c1) % 0x100_0000 == Unsigned(c2) % 0x100_0000
  {
    if Unsigned(c1) % 0x100_0000 == Unsigned(c2) % 0x100_0000 {
      SameValueSameDigits(MakeHexColor(c1), MakeHexColor(c2));
    }
  }

  /** The padded string of a colour that already fits in 24 bits denotes the colour itself. */
  lemma RgbColorRoundTrip(c: Int32)
    requires 0 <= c < 0x100_0000
    ensures HexValue(MakeHexColor(c)) == c
  {
  }

  /** A six-digit string denoting a colour's low 24 bits is that colour's string. */
  lemma ColorString(c: Int32, s: string)
    requires |s| == 6 && IsHexString(s)
    requires HexValue(s) == Unsigned(c) % 0x100_0000
    ensures MakeHexColor(c) == s
  {
    SameValueSameDigits(MakeHexColor(c), s);
  }

  /** Pure green: the alpha-free colour 0x008000. */
  lemma GreenColor()
    ensures MakeHexColor(32768) == "008000"
  {
    HexLiteral("008000", 0x008000);
    ColorString(32768, "008000");
  }

  /** Black. */
  lemma BlackColor()
    ensures MakeHexColor(0) == "000000"
  {
    HexLiteral("000000", 0);
    ColorString(0, "000000");
  }

  /** A negative (opaque ARGB) colour: the alpha byte 0xff is dropped. */
  lemma OpaqueGrayColor()
    ensures MakeHexColor(-6579301) == "9b9b9b"
  {
    assert Unsigned(-6579301) == 0xff9b9b9b;
    ModUnique(0xff9b9b9b, 0x100_0000, 0xff, 0x9b9b9b);
    HexLiteral("9b9b9b", 0x9b9b9b);
    ColorString(-6579301, "9b9b9b");
  }

  /** Dark red. */
  lemma DarkRedColor()
    ensures MakeHexColor(8388608) == "800000"
  {
    HexLiteral("800000", 0x800000);
    ColorString(8388608, "800000");
  }

  lemma HexLiteral(s: string, v: nat)
    requires |s| == 6 && IsHexString(s)
    requires v == ((((DigitValue(s[0]) * 16 + DigitValue(s[1])) * 16 + DigitValue(s[2])) * 16
                    + DigitValue(s[3])) * 16 + DigitValue(s[4])) * 16 + DigitValue(s[5])
    ensures HexValue(s) == v
  {
    assert s[..1][..0] == [];
    assert HexValue(s[..1]) == DigitValue(s[0]);
    assert s[..2][..1] == s[..1];
    assert HexValue(s[..2]) == DigitValue(s[0]) * 16 + DigitValue(s[1]);
    assert s[..3][..2] == s[..2];
    assert HexValue(s[..3]) == HexValue(s[..2]) * 16 + DigitValue(s[2]);
    assert s[..4][..3] == s[..3];
    assert HexValue(s[..4]) == HexValue(s[..3]) * 16 + DigitValue(s[3]);
    assert s[..5][..4] == s[..4];
    assert HexValue(s[..5]) == HexValue(s[..4]) * 16 + DigitValue(s[4]);
    assert s[..5] == s[..|s| - 1];
  }
}

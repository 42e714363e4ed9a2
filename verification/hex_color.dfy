/**
 * The integer part of building a colour from a hex string such as
 * "#5292F8": an optional '#' is skipped, the longest run of hex digits is
 * read as an unsigned 64-bit integer, and three 8-bit channels are taken
 * from it by shifting and masking.
 *
 * On non-negative integers `x >> k` is `x / 2^k` and `x & 0xFF` is
 * `x % 256`; the model writes them that way.
 */
module HexColor {

  const MaxUInt64: nat := 0xFFFF_FFFF_FFFF_FFFF

  datatype Rgb = Rgb(red: nat, green: nat, blue: nat)

  predicate IsHexDigit(c: char) {
    '0' <= c <= '9' || 'a' <= c <= 'f' || 'A' <= c <= 'F'
  }

  /** The value of a hex digit; the scan below only applies it to hex digits. */
  function HexDigitValue(c: char): (d: nat)
    ensures d < 16
  {
    if '0' <= c <= '9' then c as int - '0' as int
    else if 'a' <= c <= 'f' then c as int - 'a' as int + 10
    else if 'A' <= c <= 'F' then c as int - 'A' as int + 10
    else 0
  }

  function Pow16(n: nat): (p: nat)
    ensures p >= 1
  {
    if n == 0 then 1 else 16 * Pow16(n - 1)
  }

  /** The value of a run of hex digits, most significant first; `n` digits denote a number below 16^n. */
  function HexValue(digits: string): (v: nat)
    ensures v < Pow16(|digits|)
  {
    if digits == [] then 0
    else HexValue(digits[..|digits| - 1]) * 16 + HexDigitValue(digits[|digits| - 1])
  }

  /** The length of the longest prefix of `s` made of hex digits. */
  function HexRunLength(s: string): (n: nat)
    ensures n <= |s|
    ensures forall i :: 0 <= i < n ==> IsHexDigit(s[i])
    ensures n < |s| ==> !IsHexDigit(s[n])
  {
    if s != [] && IsHexDigit(s[0]) then 1 + HexRunLength(s[1..]) else 0
  }

  /** The scanner's optional '#': at most the first character is dropped, and only when it is '#'. */
  function SkipHash(s: string): (r: string)
    ensures |s| - 1 <= |r| <= |s| && r == s[|s| - |r|..]
    ensures |r| < |s| <==> |s| > 0 && s[0] == '#'
  {
    if |s| > 0 && s[0] == '#' then s[1..] else s
  }

  /** The hex integer the scanner reads: 0 when there are no digits, UInt64.max on overflow. */
  function ScanHex(s: string): (v: nat)
    ensures v <= MaxUInt64
  {
    var value := HexValue(s[..HexRunLength(s)]);
    if value > MaxUInt64 then MaxUInt64 else value
  }

  /** The channels `(rgb >> 16) & 0xFF`, `(rgb >> 8) & 0xFF` and `rgb & 0xFF`. */
  function Channels(hex: string): (c: Rgb)
    ensures c.red <= 255 && c.green <= 255 && c.blue <= 255
  {
    var rgb := ScanHex(SkipHash(hex));
    Rgb((rgb / 65536) % 256, (rgb / 256) % 256, rgb % 256)
  }

  /** The digit at position d of "0123456789abcdef", in either case, denotes d. */
  lemma HexDigitTable()
    ensures forall d :: 0 <= d < 16 ==>
              IsHexDigit("0123456789abcdef"[d]) && HexDigitValue("0123456789abcdef"[d]) == d &&
              IsHexDigit("0123456789ABCDEF"[d]) && HexDigitValue("0123456789ABCDEF"[d]) == d
  {
    forall d | 0 <= d < 16
      ensures IsHexDigit("0123456789abcdef"[d]) && HexDigitValue("0123456789abcdef"[d]) == d
      ensures IsHexDigit("0123456789ABCDEF"[d]) && HexDigitValue("0123456789ABCDEF"[d]) == d
    {
      if d < 10 {
        assert "0123456789abcdef"[d] as int == '0' as int + d;
        assert "0123456789ABCDEF"[d] as int == '0' as int + d;
      } else {
        assert "0123456789abcdef"[d] as int == 'a' as int + d - 10;
        assert "0123456789ABCDEF"[d] as int == 'A' as int + d - 10;
      }
    }
  }

  /** A run of `n` digits led by a non-zero digit denotes at least 16^(n-1). */
  lemma {:induction false} HexValueLowerBound(digits: string)
    requires |digits| >= 1 && HexDigitValue(digits[0]) >= 1
    ensures HexValue(digits) >= Pow16(|digits| - 1)
  {
    var init := digits[..|digits| - 1];
    if |digits| == 1 {
      assert init == [];
    } else {
      assert init[0] == digits[0];
      HexValueLowerBound(init);
    }
  }

  lemma {:induction false} Pow16Monotone(m: nat, n: nat)
    requires m <= n
    ensures Pow16(m) <= Pow16(n)
  {
    if m < n {
      Pow16Monotone(m, n - 1);
    }
  }

  /** Sixteen hex digits are exactly one 64-bit word. */
  lemma Pow16Word()
    ensures Pow16(16) == MaxUInt64 + 1
  {
    assert Pow16(4) == 65536;
    assert Pow16(8) == 65536 * 65536 by {
      assert Pow16(8) == 16 * 16 * 16 * 16 * Pow16(4);
    }
    assert Pow16(12) == 16 * 16 * 16 * 16 * Pow16(8);
    assert Pow16(16) == 16 * 16 * 16 * 16 * Pow16(12);
  }

  /** A run of at most sixteen digits is read exactly. */
  lemma ScanHexFits(s: string)
    requires HexRunLength(s) <= 16
    ensures ScanHex(s) == HexValue(s[..HexRunLength(s)])
  {
    var run := HexRunLength(s);
    Pow16Monotone(run, 16);
    Pow16Word();
  }

  /** A run of seventeen or more digits led by a non-zero digit saturates to UInt64.max. */
  lemma ScanHexSaturates(s: string)
    requires HexRunLength(s) >= 17 && HexDigitValue(s[0]) >= 1
    ensures ScanHex(s) == MaxUInt64
  {
    var digits := s[..HexRunLength(s)];
    assert digits[0] == s[0];
    LongRunExceedsWord(digits);
  }

  /** Seventeen or more digits led by a non-zero digit do not fit in 64 bits. */
  lemma LongRunExceedsWord(digits: string)
    requires |digits| >= 17 && HexDigitValue(digits[0]) >= 1
    ensures HexValue(digits) > MaxUInt64
  {
    HexValueLowerBound(digits);
    Pow16Monotone(16, |digits| - 1);
    Pow16Word();
  }

  lemma ShiftDigit(x: int, p: int, y: int, d: int)
    ensures (x * p + y) * 16 + d == x * (16 * p) + (y * 16 + d)
  {
  }

  /** Concatenating digit runs shifts the first by the length of the second. */
  lemma {:induction false} HexValueAppend(a: string, b: string)
    ensures HexValue(a + b) == HexValue(a) * Pow16(|b|) + HexValue(b)
  {
    if b == [] {
      assert a + b == a;
    } else {
      var b' := b[..|b| - 1];
      var last := b[|b| - 1];
      assert (a + b)[..|a + b| - 1] == a + b';
      assert (a + b)[|a + b| - 1] == last;
      HexValueAppend(a, b');
      ShiftDigit(HexValue(a), Pow16(|b'|), HexValue(b'), HexDigitValue(last));
    }
  }

  /** Appending a two-digit run shifts the value left by one byte. */
  lemma AppendByte(a: string, b: string)
    requires |b| == 2
    ensures HexValue(a + b) == HexValue(a) * 256 + HexValue(b)
  {
    HexValueAppend(a, b);
    assert Pow16(|b|) == 256;
  }

  /** Two hex digits make a byte. */
  lemma TwoDigitValue(s: string)
    requires |s| == 2
    ensures HexValue(s) == HexDigitValue(s[0]) * 16 + HexDigitValue(s[1])
    ensures HexValue(s) <= 255
  {
    var first := s[..1];
    assert first[..0] == [] && first[0] == s[0];
    assert HexValue(first) == HexDigitValue(s[0]);
  }

  /** Six digits are three two-digit bytes, most significant first. */
  lemma SixDigitValue(digits: string)
    requires |digits| == 6
    ensures HexValue(digits) ==
              HexValue(digits[0..2]) * 65536 + HexValue(digits[2..4]) * 256 + HexValue(digits[4..6])
  {
    var r, g, b := digits[0..2], digits[2..4], digits[4..6];
    assert digits == (r + g) + b;
    AppendByte(r, g);
    AppendByte(r + g, b);
  }

  lemma ByteSplit(hi: nat, mid: nat, lo: nat)
    requires hi < 256 && mid < 256 && lo < 256
    ensures var v := hi * 65536 + mid * 256 + lo;
      (v / 65536) % 256 == hi && (v / 256) % 256 == mid && v % 256 == lo
  {
    var v := hi * 65536 + mid * 256 + lo;
    assert v == (hi * 256 + mid) * 256 + lo;
    assert v / 256 == hi * 256 + mid;
    assert v == hi * 65536 + (mid * 256 + lo);
    assert v / 65536 == hi;
  }

  /** For "#RRGGBB" the channels are the three digit pairs. */
  lemma SixDigitChannels(hex: string)
    requires |hex| == 7 && hex[0] == '#'
    requires forall i :: 1 <= i < 7 ==> IsHexDigit(hex[i])
    ensures Channels(hex) == Rgb(HexValue(hex[1..3]), HexValue(hex[3..5]), HexValue(hex[5..7]))
  {
    var s := SkipHash(hex);
    assert s == hex[1..];
    assert HexRunLength(s) == 6;
    var digits := s[..6];
    assert digits[0..2] == hex[1..3] && digits[2..4] == hex[3..5] && digits[4..6] == hex[5..7];
    SixDigitValue(digits);
    TwoDigitValue(hex[1..3]);
    TwoDigitValue(hex[3..5]);
    TwoDigitValue(hex[5..7]);
    ByteSplit(HexValue(hex[1..3]), HexValue(hex[3..5]), HexValue(hex[5..7]));
  }

  /** The accent colour of the dashboard. */
  lemma AccentColour()
    ensures Channels("#5292F8") == Rgb(0x52, 0x92, 0xF8)
  {
    var hex := "#5292F8";
    SixDigitChannels(hex);
    var r, g, b := hex[1..3], hex[3..5], hex[5..7];
    assert r == "52" && g == "92" && b == "F8";
    TwoDigitValue(r);
    TwoDigitValue(g);
    TwoDigitValue(b);
    assert HexDigitValue('5') == 5 && HexDigitValue('2') == 2 && HexDigitValue('9') == 9;
    assert HexDigitValue('F') == 15 && HexDigitValue('8') == 8;
  }

  /** A string without hex digits after the optional '#' gives black. */
  lemma NoDigitsIsBlack(hex: string)
    requires SkipHash(hex) == [] || !IsHexDigit(SkipHash(hex)[0])
    ensures Channels(hex) == Rgb(0, 0, 0)
  {
    assert SkipHash(hex)[..0] == [];
  }
}

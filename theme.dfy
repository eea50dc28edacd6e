/**
 * `Color(hex:)`: the integer part of decoding a colour written in hex
 * (3, 6 or 8 digits, optionally wrapped in non-alphanumeric characters
 * such as `#`) into alpha, red, green and blue components.
 */
module Theme {

  import opened Text

  // ---------------------------------------------------------------------------
  // Trimming non-alphanumerics

  /** How many non-alphanumeric characters open `s`. */
  function LeadingCut(s: String): (i: nat)
    ensures i <= |s|
    ensures forall k :: 0 <= k < i ==> !IsAlphanumeric(s[k])
    ensures i < |s| ==> IsAlphanumeric(s[i])
  {
    if s == [] || IsAlphanumeric(s[0]) then 0
    else
      var i := LeadingCut(s[1..]);
      assert forall k :: 1 <= k < i + 1 ==> s[k] == s[1..][k - 1];
      i + 1
  }

  /** Where the run of non-alphanumeric characters closing `s` starts. */
  function TrailingCut(s: String): (j: nat)
    ensures j <= |s|
    ensures forall k :: j <= k < |s| ==> !IsAlphanumeric(s[k])
    ensures j > 0 ==> IsAlphanumeric(s[j - 1])
  {
    if s == [] || IsAlphanumeric(s[|s| - 1]) then |s|
    else
      var j := TrailingCut(s[..|s| - 1]);
      assert forall k :: 0 <= k < |s| - 1 ==> s[k] == s[..|s| - 1][k];
      j
  }

  /**
   * `trimmingCharacters(in: .alphanumerics.inverted)`: drops the
   * non-alphanumeric characters at both ends and keeps everything between.
   */
  function TrimNonAlphanumerics(s: String): (r: String)
    ensures r != [] ==> IsAlphanumeric(r[0]) && IsAlphanumeric(r[|r| - 1])
    ensures LeadingCut(s) + |r| <= |s| && r == s[LeadingCut(s)..LeadingCut(s) + |r|]
    ensures (forall k :: 0 <= k < |s| ==> !IsAlphanumeric(s[k])) <==> r == []
  {
    var i := LeadingCut(s);
    var t := s[i..];
    var r := t[..TrailingCut(t)];
    assert r == s[i..i + |r|];
    assert t != [] ==> IsAlphanumeric(t[0]);
    r
  }

  /** A string that starts and ends with alphanumerics is left as it is; inner characters are never touched. */
  lemma TrimKeepsInterior(s: String)
    requires s != [] && IsAlphanumeric(s[0]) && IsAlphanumeric(s[|s| - 1])
    ensures TrimNonAlphanumerics(s) == s
  {
  }

  // ---------------------------------------------------------------------------
  // Scanning hex

  predicate IsHexDigit(c: char) {
    ('0' <= c <= '9') || ('a' <= c <= 'f') || ('A' <= c <= 'F')
  }

  predicate AllHex(s: String) {
    forall i :: 0 <= i < |s| ==> IsHexDigit(s[i])
  }

  function HexDigitValue(c: char): (v: nat)
    requires IsHexDigit(c)
    ensures v < 16
  {
    if '0' <= c <= '9' then c as int - '0' as int
    else if 'a' <= c <= 'f' then c as int - 'a' as int + 10
    else c as int - 'A' as int + 10
  }

  function Pow16(n: nat): (p: nat)
    ensures p >= 1
  {
    if n == 0 then 1 else 16 * Pow16(n - 1)
  }

  /** The number the hex digits of `s` spell, most significant first. */
  function HexValue(s: String): (v: nat)
    requires AllHex(s)
    ensures v < Pow16(|s|)
  {
    if s == [] then 0 else HexValue(s[..|s| - 1]) * 16 + HexDigitValue(s[|s| - 1])
  }

  /** How many hex digits open `s`. */
  function HexRun(s: String): (n: nat)
    ensures n <= |s| && AllHex(s[..n])
    ensures n < |s| ==> !IsHexDigit(s[n])
  {
    if s == [] || !IsHexDigit(s[0]) then 0
    else
      var n := HexRun(s[1..]);
      assert s[..n + 1] == [s[0]] + s[1..][..n];
      n + 1
  }

  /**
   * `Scanner.scanHexInt64`: an optional `0x`/`0X`, then the longest run of
   * hex digits; with no digits the target keeps its initial 0.
   */
  function ScanHex(s: String): (v: nat)
    ensures v < Pow16(|s|)
  {
    var body := if |s| >= 2 && s[0] == '0' && (s[1] == 'x' || s[1] == 'X') then s[2..] else s;
    var n := HexRun(body);
    Pow16Monotonic(n, |s|);
    HexValue(body[..n])
  }

  /** The hex run of hex digits followed by something else is exactly those digits. */
  lemma {:induction false} HexRunStops(digits: String, rest: String)
    requires AllHex(digits) && (rest == [] || !IsHexDigit(rest[0]))
    ensures HexRun(digits + rest) == |digits|
  {
    if digits != [] {
      assert (digits + rest)[1..] == digits[1..] + rest;
      HexRunStops(digits[1..], rest);
    } else {
      assert digits + rest == rest;
    }
  }

  /**
   * Without a `0x` prefix, scanning reads the hex digits up to the first
   * character that is not one and ignores everything from there on.
   */
  lemma ScanHexReadsLeadingDigits(digits: String, rest: String)
    requires AllHex(digits) && (rest == [] || !IsHexDigit(rest[0]))
    requires !(digits == "0" && rest != [] && (rest[0] == 'x' || rest[0] == 'X'))
    ensures ScanHex(digits + rest) == HexValue(digits)
  {
    var body := digits + rest;
    HexRunStops(digits, rest);
    assert body[..|digits|] == digits;
    if |body| >= 2 && body[0] == '0' && (body[1] == 'x' || body[1] == 'X') {
      assert false;
    }
  }

  /** After `0x` or `0X`, scanning reads the hex digits up to the first character that is not one. */
  lemma ScanHexSkipsPrefix(x: char, digits: String, rest: String)
    requires x == 'x' || x == 'X'
    requires AllHex(digits) && (rest == [] || !IsHexDigit(rest[0]))
    ensures ScanHex(['0', x] + digits + rest) == HexValue(digits)
  {
    var body := digits + rest;
    HexRunStops(digits, rest);
    assert body[..|digits|] == digits;
    assert (['0', x] + digits + rest)[2..] == body;
  }

  /** Appending a digit shifts the value up one place. */
  lemma HexValueSnoc(s: String, c: char)
    requires AllHex(s) && IsHexDigit(c)
    ensures HexValue(s + [c]) == HexValue(s) * 16 + HexDigitValue(c)
  {
    assert (s + [c])[..|s|] == s;
  }

  /** "0x1234" scans as 0x1234. */
  lemma ScanHexPrefixedExample()
    ensures ScanHex("0x1234") == 0x1234
  {
    ScanHexSkipsPrefix('x', "1234", []);
    assert ['0', 'x'] + "1234" + [] == "0x1234";
    HexValue1234();
  }

  lemma HexValue1234()
    ensures HexValue("1234") == 0x1234
  {
    HexValueSnoc([], '1');
    HexValueSnoc("1", '2');
    HexValueSnoc("12", '3');
    HexValueSnoc("123", '4');
    assert [] + ['1'] == "1" && "1" + ['2'] == "12" && "12" + ['3'] == "123" && "123" + ['4'] == "1234";
  }

  /** "12g" stops at the `g` and scans as 0x12. */
  lemma ScanHexStopExample()
    ensures ScanHex("12g") == 0x12
  {
    ScanHexReadsLeadingDigits("12", "g");
    assert "12" + "g" == "12g";
    HexValueSnoc([], '1');
    HexValueSnoc("1", '2');
    assert [] + ['1'] == "1" && "1" + ['2'] == "12";
  }

  lemma {:induction false} Pow16Monotonic(m: nat, n: nat)
    requires m <= n
    ensures Pow16(m) <= Pow16(n)
    decreases n
  {
    if m < n {
      Pow16Monotonic(m, n - 1);
    }
  }

  // ---------------------------------------------------------------------------
  // Decoding

  /** Alpha, red, green and blue, each meant to lie in 0..255. */
  datatype Argb = Argb(a: int, r: int, g: int, b: int)

  const Black: Argb := Argb(255, 0, 0, 0)

  /**
   * The integer components `Color(hex:)` computes: 3 digits give nibbles
   * scaled by 17, 6 digits give bytes, 8 digits give alpha then bytes, any
   * other length gives opaque black.
   */
  function ColorFromHex(hex: String): (c: Argb)
    ensures 0 <= c.a <= 255 && 0 <= c.r <= 255 && 0 <= c.g <= 255 && 0 <= c.b <= 255
    ensures |TrimNonAlphanumerics(hex)| !in {3, 6, 8} ==> c == Black
    ensures |TrimNonAlphanumerics(hex)| != 8 ==> c.a == 255
  {
    var trimmed := TrimNonAlphanumerics(hex);
    var v := ScanHex(trimmed);
    var n := |trimmed|;
    if n == 3 then
      assert Pow16(3) == 4096;
      Argb(255, (v / 256) * 17, (v / 16 % 16) * 17, (v % 16) * 17)
    else if n == 6 then
      assert Pow16(6) == 0x100_0000;
      Argb(255, v / 0x1_0000, v / 256 % 256, v % 256)
    else if n == 8 then
      assert Pow16(8) == 0x1_0000_0000;
      Argb(v / 0x100_0000, v / 0x1_0000 % 256, v / 256 % 256, v % 256)
    else Black
  }

  // ---------------------------------------------------------------------------
  // Writing hex, and the round trips

  function HexChar(d: nat): (c: char)
    requires d < 16
    ensures IsHexDigit(c) && HexDigitValue(c) == d && c != 'x' && c != 'X'
  {
    if d < 10 then ('0' as int + d) as char else ('a' as int + d - 10) as char
  }

  /** The last `width` hex digits of `v`, lower case, most significant first. */
  function HexString(v: nat, width: nat): (s: String)
    ensures |s| == width && AllHex(s)
    ensures forall i :: 0 <= i < |s| ==> IsAlphanumeric(s[i]) && s[i] != 'x' && s[i] != 'X'
  {
    if width == 0 then [] else HexString(v / 16, width - 1) + [HexChar(v % 16)]
  }

  /** Reading back `width` written digits gives the value modulo 16^width. */
  lemma {:induction false} HexValueOfHexString(v: nat, width: nat)
    ensures HexValue(HexString(v, width)) == v % Pow16(width)
  {
    if width > 0 {
      var s := HexString(v, width);
      assert s[..|s| - 1] == HexString(v / 16, width - 1);
      HexValueOfHexString(v / 16, width - 1);
      ModPow16Step(v, width);
    }
  }

  lemma ModPow16Step(v: nat, width: nat)
    requires width > 0
    ensures v % Pow16(width) == (v / 16) % Pow16(width - 1) * 16 + v % 16
  {
    var p := Pow16(width - 1);
    var q, r := v / 16, v % 16;
    var q2, r2 := q / p, q % p;
    assert v == 16 * (q2 * p + r2) + r;
    assert v == q2 * (16 * p) + (16 * r2 + r);
    assert 0 <= 16 * r2 + r < 16 * p;
    assert Pow16(width) == 16 * p;
    DivModUnique(v, 16 * p, q2, 16 * r2 + r);
  }

  /** Quotient and remainder are the only such pair. */
  lemma DivModUnique(v: int, d: int, q: int, r: int)
    requires d > 0 && v == q * d + r && 0 <= r < d
    ensures v / d == q && v % d == r
  {
    var q', r' := v / d, v % d;
    assert v == q' * d + r';
    if q < q' {
      MulStep(q, q', d);
      assert false;
    } else if q' < q {
      MulStep(q', q, d);
      assert false;
    }
  }

  /** A larger factor adds at least one more `d`. */
  lemma MulStep(a: int, b: int, d: int)
    requires a < b && d > 0
    ensures a * d + d <= b * d
  {
    var k := b - a - 1;
    assert b * d == a * d + d + k * d;
    assert k * d >= 0;
  }

  /** Scanning a written value of `width` digits (for a value that fits) gives it back. */
  lemma ScanHexString(v: nat, width: nat)
    requires v < Pow16(width) && width >= 1
    ensures ScanHex(HexString(v, width)) == v
  {
    var s := HexString(v, width);
    assert |s| >= 2 ==> s[1] != 'x' && s[1] != 'X';
    assert HexRun(s) == |s| by {
      HexRunAllHex(s);
    }
    assert s[..|s|] == s;
    HexValueOfHexString(v, width);
    DivModUnique(v, Pow16(width), 0, v);
  }

  lemma {:induction false} HexRunAllHex(s: String)
    requires AllHex(s)
    ensures HexRun(s) == |s|
  {
    if s != [] {
      HexRunAllHex(s[1..]);
    }
  }

  /** A written colour is read back unchanged by the trimming step, with or without a leading `#`. */
  lemma TrimHexString(v: nat, width: nat)
    requires width >= 1
    ensures TrimNonAlphanumerics(HexString(v, width)) == HexString(v, width)
    ensures TrimNonAlphanumerics(['#'] + HexString(v, width)) == HexString(v, width)
  {
    var s := HexString(v, width);
    TrimKeepsInterior(s);
    var t := ['#'] + s;
    assert t[1..] == s;
    assert LeadingCut(t) == 1;
  }

  /** `ColorFromHex` on a hex string that trims to `width` digits, in terms of the scanned value. */
  lemma ColorOfWidth(hex: String, width: nat, v: nat)
    requires |TrimNonAlphanumerics(hex)| == width && ScanHex(TrimNonAlphanumerics(hex)) == v
    ensures width == 3 ==> ColorFromHex(hex) == Argb(255, (v / 256) * 17, (v / 16 % 16) * 17, (v % 16) * 17)
    ensures width == 6 ==> ColorFromHex(hex) == Argb(255, v / 0x1_0000, v / 256 % 256, v % 256)
    ensures width == 8 ==> ColorFromHex(hex) == Argb(v / 0x100_0000, v / 0x1_0000 % 256, v / 256 % 256, v % 256)
  {
  }

  /** Six digits: the first two are red, the middle two green, the last two blue, fully opaque. */
  lemma SixDigitRoundTrip(r: nat, g: nat, b: nat)
    requires r < 256 && g < 256 && b < 256
    ensures ColorFromHex(HexString(r * 0x1_0000 + g * 256 + b, 6)) == Argb(255, r, g, b)
    ensures ColorFromHex(['#'] + HexString(r * 0x1_0000 + g * 256 + b, 6)) == Argb(255, r, g, b)
  {
    var v := r * 0x1_0000 + g * 256 + b;
    var s := HexString(v, 6);
    assert Pow16(6) == 0x100_0000;
    TrimHexString(v, 6);
    ScanHexString(v, 6);
    ColorOfWidth(s, 6, v);
    ColorOfWidth(['#'] + s, 6, v);
    ByteFields(0, r, g, b);
  }

  /** Eight digits: alpha first, then red, green and blue. */
  lemma EightDigitRoundTrip(a: nat, r: nat, g: nat, b: nat)
    requires a < 256 && r < 256 && g < 256 && b < 256
    ensures ColorFromHex(HexString(a * 0x100_0000 + r * 0x1_0000 + g * 256 + b, 8)) == Argb(a, r, g, b)
  {
    var v := a * 0x100_0000 + r * 0x1_0000 + g * 256 + b;
    var s := HexString(v, 8);
    assert Pow16(8) == 0x1_0000_0000;
    TrimHexString(v, 8);
    ScanHexString(v, 8);
    ColorOfWidth(s, 8, v);
    ByteFields(a, r, g, b);
  }

  /** Shifting and masking pulls the four bytes back out of their packed value. */
  lemma ByteFields(a: nat, r: nat, g: nat, b: nat)
    requires a < 256 && r < 256 && g < 256 && b < 256
    ensures var v := a * 0x100_0000 + r * 0x1_0000 + g * 256 + b;
      v / 0x100_0000 == a && v / 0x1_0000 == a * 256 + r && v / 0x1_0000 % 256 == r
      && v / 256 % 256 == g && v % 256 == b
  {
    var v := a * 0x100_0000 + r * 0x1_0000 + g * 256 + b;
    DivModUnique(v, 0x100_0000, a, r * 0x1_0000 + g * 256 + b);
    DivModUnique(v, 0x1_0000, a * 256 + r, g * 256 + b);
    DivModUnique(a * 256 + r, 256, a, r);
    DivModUnique(v, 256, a * 0x1_0000 + r * 256 + g, b);
    DivModUnique(a * 0x1_0000 + r * 256 + g, 256, a * 256 + r, g);
  }

  /** Three digits: each nibble scaled by 17, so "fff" is opaque white and "000" opaque black. */
  lemma ThreeDigitRoundTrip(r: nat, g: nat, b: nat)
    requires r < 16 && g < 16 && b < 16
    ensures ColorFromHex(HexString(r * 256 + g * 16 + b, 3)) == Argb(255, r * 17, g * 17, b * 17)
  {
    var v := r * 256 + g * 16 + b;
    var s := HexString(v, 3);
    assert Pow16(3) == 4096;
    TrimHexString(v, 3);
    ScanHexString(v, 3);
    ColorOfWidth(s, 3, v);
    NibbleFields(r, g, b);
  }

  /** Shifting and masking pulls the three nibbles back out of their packed value. */
  lemma NibbleFields(r: nat, g: nat, b: nat)
    requires r < 16 && g < 16 && b < 16
    ensures var v := r * 256 + g * 16 + b;
      v / 256 == r && v / 16 % 16 == g && v % 16 == b
  {
    var v := r * 256 + g * 16 + b;
    DivModUnique(v, 16, r * 16 + g, b);
    DivModUnique(r * 16 + g, 16, r, g);
    DivModUnique(v, 256, r, g * 16 + b);
  }

  lemma WhiteFromThreeDigits()
    ensures ColorFromHex("fff") == Argb(255, 255, 255, 255)
  {
    ThreeDigitRoundTrip(15, 15, 15);
    assert HexChar(15) == 'f';
    assert HexString(15, 1) == "f" by {
      assert HexString(0, 0) == [];
    }
    assert HexString(255, 2) == "ff";
    assert HexString(4095, 3) == "fff";
  }
}

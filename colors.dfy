/** The theme colours (AppColors.swift): `Color(hex:)` on its integer side, and the
    background chosen for the colour scheme. */
module Colors {

  /** A colour as the four 8-bit channels `Color(hex:)` computes before dividing by 255. */
  datatype Rgba = Rgba(a: nat, r: nat, g: nat, b: nat)

  predicate IsDigit(c: char) {
    '0' <= c <= '9'
  }

  /** ASCII letters and digits (the alphanumeric character set, limited to ASCII). */
  predicate IsAlnum(c: char) {
    IsDigit(c) || 'a' <= c <= 'z' || 'A' <= c <= 'Z'
  }

  predicate IsHex(c: char) {
    IsDigit(c) || 'a' <= c <= 'f' || 'A' <= c <= 'F'
  }

  function HexDigit(c: char): (v: nat)
    requires IsHex(c)
    ensures v < 16
  {
    if IsDigit(c) then c as nat - '0' as nat
    else if 'a' <= c <= 'f' then c as nat - 'a' as nat + 10
    else c as nat - 'A' as nat + 10
  }

  // ---------------------------------------------------------------------------
  // Trimming

  function LeadingJunk(s: string): (n: nat)
    ensures n <= |s|
    ensures forall i :: 0 <= i < n ==> !IsAlnum(s[i])
    ensures n < |s| ==> IsAlnum(s[n])
  {
    if |s| > 0 && !IsAlnum(s[0]) then 1 + LeadingJunk(s[1..]) else 0
  }

  function TrailingJunk(s: string): (n: nat)
    ensures n <= |s|
    ensures forall i :: |s| - n <= i < |s| ==> !IsAlnum(s[i])
    ensures n < |s| ==> IsAlnum(s[|s| - 1 - n])
  {
    if |s| > 0 && !IsAlnum(s[|s| - 1]) then 1 + TrailingJunk(s[..|s| - 1]) else 0
  }

  /** `trimmingCharacters(in: CharacterSet.alphanumerics.inverted)`: the input without the
      non-alphanumeric characters at either end. */
  function Strip(s: string): (r: string)
    ensures |r| <= |s|
    ensures |r| > 0 ==> IsAlnum(r[0]) && IsAlnum(r[|r| - 1])
    ensures |r| == 0 <==> forall i :: 0 <= i < |s| ==> !IsAlnum(s[i])
  {
    var i := LeadingJunk(s);
    if i == |s| then ""
    else
      var j := TrailingJunk(s);
      assert IsAlnum(s[i]);
      assert j < |s| - i;
      s[i..|s| - j]
  }

  // ---------------------------------------------------------------------------
  // Scanning

  /** How many characters from the start are hex digits. */
  function HexRun(s: string): (n: nat)
    ensures n <= |s|
    ensures forall i :: 0 <= i < n ==> IsHex(s[i])
  {
    if |s| > 0 && IsHex(s[0]) then 1 + HexRun(s[1..]) else 0
  }

  /** The value of a run of hex digits, most significant first. */
  function HexValue(d: string): nat
    requires forall i :: 0 <= i < |d| ==> IsHex(d[i])
  {
    if |d| == 0 then 0 else HexValue(d[..|d| - 1]) * 16 + HexDigit(d[|d| - 1])
  }

  function Pow16(n: nat): (p: nat)
    ensures p >= 1
  {
    if n == 0 then 1 else 16 * Pow16(n - 1)
  }

  /** `scanHexInt64`: an optional `0x` or `0X` before the digits, then as many hex digits as
      there are; without any digit the value stays 0. */
  function ScanHex(s: string): nat {
    if |s| >= 3 && s[0] == '0' && (s[1] == 'x' || s[1] == 'X') && IsHex(s[2]) then
      HexValue(s[2..2 + HexRun(s[2..])])
    else
      HexValue(s[..HexRun(s)])
  }

  lemma {:induction false} HexValueBound(d: string)
    requires forall i :: 0 <= i < |d| ==> IsHex(d[i])
    ensures HexValue(d) < Pow16(|d|)
  {
    if |d| > 0 {
      HexValueBound(d[..|d| - 1]);
    }
  }

  lemma PowMonotone(m: nat, n: nat)
    requires m <= n
    ensures Pow16(m) <= Pow16(n)
    decreases n
  {
    if m < n {
      PowMonotone(m, n - 1);
    }
  }

  /** The scanned value has no more hex digits than the input has characters. */
  lemma ScanBound(s: string)
    ensures ScanHex(s) < Pow16(|s|)
  {
    if |s| >= 3 && s[0] == '0' && (s[1] == 'x' || s[1] == 'X') && IsHex(s[2]) {
      var t := s[2..];
      RunBound(t);
      assert s[2..2 + HexRun(t)] == t[..HexRun(t)];
      PowMonotone(|t|, |s|);
    } else {
      RunBound(s);
    }
  }

  /** The leading run of hex digits is worth less than 16 to the power of the text's length. */
  lemma RunBound(t: string)
    ensures HexValue(t[..HexRun(t)]) < Pow16(|t|)
  {
    var d := t[..HexRun(t)];
    HexValueBound(d);
    PowMonotone(|d|, |t|);
  }

  // ---------------------------------------------------------------------------
  // `Color(hex:)`

  /** The length switch on the scanned value of the stripped input: 3 digits repeat each
      nibble, 6 digits are RGB, 8 digits ARGB; any other length is opaque black. Shifts are
      divisions by powers of two, masks remainders. */
  function ParseHex(hex: string): (c: Rgba)
    ensures c.a <= 255 && c.r <= 255 && c.g <= 255 && c.b <= 255
  {
    var h := Strip(hex);
    var v := ScanHex(h);
    ScanBound(h);
    if |h| == 3 then
      Rgba(255, (v / 256) * 17, (v / 16 % 16) * 17, (v % 16) * 17)
    else if |h| == 6 then
      Rgba(255, v / 65536, v / 256 % 256, v % 256)
    else if |h| == 8 then
      Rgba(v / 16777216, v / 65536 % 256, v / 256 % 256, v % 256)
    else
      Rgba(255, 0, 0, 0)
  }

  predicate AllHex(s: string) {
    forall i :: 0 <= i < |s| ==> IsHex(s[i])
  }

  lemma {:induction false} HexRunAll(s: string)
    requires AllHex(s)
    ensures HexRun(s) == |s|
  {
    if |s| > 0 {
      HexRunAll(s[1..]);
    }
  }

  /** Regrouping one more digit onto a split value. */
  lemma Regroup(a: nat, p: nat, b: nat, c: nat)
    ensures (a * p + b) * 16 + c == a * (16 * p) + (b * 16 + c)
  {
  }

  /** A hex value splits at any digit: the leading digits scaled, plus the trailing ones. */
  lemma {:induction false} HexValueSplit(d: string, k: nat)
    requires AllHex(d) && k <= |d|
    ensures HexValue(d) == HexValue(d[..k]) * Pow16(|d| - k) + HexValue(d[k..])
    decreases |d|
  {
    if k < |d| {
      var init := d[..|d| - 1];
      var tail := d[k..];
      var c := HexDigit(d[|d| - 1]);
      assert init[..k] == d[..k];
      assert tail[..|tail| - 1] == init[k..] && tail[|tail| - 1] == d[|d| - 1];
      HexValueSplit(init, k);
      var a, p, b := HexValue(d[..k]), Pow16(|init| - k), HexValue(init[k..]);
      assert HexValue(d) == HexValue(init) * 16 + c;
      assert HexValue(tail) == b * 16 + c;
      assert Pow16(|d| - k) == 16 * p;
      Regroup(a, p, b, c);
    } else {
      assert d[..k] == d;
      assert d[k..] == [];
    }
  }

  /** Two hex digits make one channel. */
  function Pair(s: string, i: nat): (v: nat)
    requires AllHex(s) && i + 2 <= |s|
    ensures v <= 255
  {
    HexDigit(s[i]) * 16 + HexDigit(s[i + 1])
  }

  lemma TwoDigits(s: string, i: nat)
    requires AllHex(s) && i + 2 <= |s|
    ensures HexValue(s[i..i + 2]) == Pair(s, i)
  {
    var p := s[i..i + 2];
    assert p[..1][..0] == [];
    assert p[..1] == [s[i]] && p[1] == s[i + 1];
    assert HexValue(p[..1]) == HexDigit(s[i]);
  }

  lemma Div16(q: nat, r: nat)
    requires r < 16
    ensures (q * 16 + r) / 16 == q && (q * 16 + r) % 16 == r
  {
  }

  lemma Div256(q: nat, r: nat)
    requires r < 256
    ensures (q * 256 + r) / 256 == q && (q * 256 + r) % 256 == r
  {
  }

  lemma Div65536(q: nat, r: nat)
    requires r < 65536
    ensures (q * 65536 + r) / 65536 == q && (q * 65536 + r) % 65536 == r
  {
  }

  lemma Div16777216(q: nat, r: nat)
    requires r < 16777216
    ensures (q * 16777216 + r) / 16777216 == q && (q * 16777216 + r) % 16777216 == r
  {
  }

  /** An input made of hex digits only is not stripped and is scanned whole. */
  lemma ScanAllHex(h: string)
    requires AllHex(h)
    ensures Strip(h) == h && ScanHex(h) == HexValue(h)
  {
    StripAlnum(h);
    HexRunAll(h);
    assert h[..HexRun(h)] == h;
    if |h| >= 3 {
      assert IsHex(h[1]);
    }
  }

  /** The leading pair of digits, scaled, plus the rest. */
  lemma SplitPair(d: string)
    requires AllHex(d) && |d| >= 2
    ensures HexValue(d) == Pair(d, 0) * Pow16(|d| - 2) + HexValue(d[2..])
  {
    HexValueSplit(d, 2);
    TwoDigits(d, 0);
    assert d[..2] == d[0..2];
  }

  lemma SixValue(h: string)
    requires |h| == 6 && AllHex(h)
    ensures HexValue(h) == Pair(h, 0) * 65536 + Pair(h, 2) * 256 + Pair(h, 4)
  {
    var t := h[2..];
    var u := t[2..];
    assert Pow16(0) == 1 && Pow16(2) == 256 && Pow16(4) == 65536;
    SplitPair(h);
    SplitPair(t);
    SplitPair(u);
    assert u[2..] == [];
    assert Pair(t, 0) == Pair(h, 2) && Pair(u, 0) == Pair(h, 4);
  }

  lemma EightValue(h: string)
    requires |h| == 8 && AllHex(h)
    ensures HexValue(h) == Pair(h, 0) * 16777216 + Pair(h, 2) * 65536 + Pair(h, 4) * 256 + Pair(h, 6)
  {
    var t := h[2..];
    var u := t[2..];
    var w := u[2..];
    assert Pow16(0) == 1 && Pow16(2) == 256 && Pow16(4) == 65536 && Pow16(6) == 16777216;
    SplitPair(h);
    SplitPair(t);
    SplitPair(u);
    SplitPair(w);
    assert w[2..] == [];
    assert Pair(t, 0) == Pair(h, 2) && Pair(u, 0) == Pair(h, 4) && Pair(w, 0) == Pair(h, 6);
  }

  /** The 24-bit case's shifts and masks take three bytes apart again. */
  lemma ThreeBytes(r: nat, g: nat, b: nat)
    requires r < 256 && g < 256 && b < 256
    ensures var v := r * 65536 + g * 256 + b;
      v / 65536 == r && v / 256 % 256 == g && v % 256 == b
  {
    Div256(r * 256 + g, b);
    Div256(r, g);
    Div65536(r, g * 256 + b);
  }

  /** The 32-bit case's shifts and masks take four bytes apart again. */
  lemma FourBytes(a: nat, r: nat, g: nat, b: nat)
    requires a < 256 && r < 256 && g < 256 && b < 256
    ensures var v := a * 16777216 + r * 65536 + g * 256 + b;
      v / 16777216 == a && v / 65536 % 256 == r && v / 256 % 256 == g && v % 256 == b
  {
    Div256(a * 65536 + r * 256 + g, b);
    Div256(a * 256 + r, g);
    Div65536(a * 256 + r, g * 256 + b);
    Div256(a, r);
    Div16777216(a, r * 65536 + g * 256 + b);
  }

  /** The 12-bit case's shifts and masks take three nibbles apart again. */
  lemma ThreeNibbles(x: nat, y: nat, z: nat)
    requires x < 16 && y < 16 && z < 16
    ensures var v := (x * 16 + y) * 16 + z;
      v / 256 == x && v / 16 % 16 == y && v % 16 == z
  {
    Div16(x * 16 + y, z);
    Div16(x, y);
    assert (x * 16 + y) * 16 + z == x * 256 + (y * 16 + z);
    Div256(x, y * 16 + z);
  }

  /** A six-digit input gives opaque red, green and blue from its three digit pairs. */
  lemma SixDigits(h: string)
    requires |h| == 6 && AllHex(h)
    ensures ParseHex(h) == Rgba(255, Pair(h, 0), Pair(h, 2), Pair(h, 4))
  {
    ScanAllHex(h);
    SixValue(h);
    ThreeBytes(Pair(h, 0), Pair(h, 2), Pair(h, 4));
  }

  /** An eight-digit input gives alpha, red, green and blue from its four digit pairs. */
  lemma EightDigits(h: string)
    requires |h| == 8 && AllHex(h)
    ensures ParseHex(h) == Rgba(Pair(h, 0), Pair(h, 2), Pair(h, 4), Pair(h, 6))
  {
    ScanAllHex(h);
    EightValue(h);
    FourBytes(Pair(h, 0), Pair(h, 2), Pair(h, 4), Pair(h, 6));
  }

  /** A three-digit input repeats each digit, so a nibble n becomes 17 * n: `F` is 255 and
      `0` is 0; alpha is opaque. */
  lemma ThreeDigits(h: string)
    requires |h| == 3 && AllHex(h)
    ensures ParseHex(h) == Rgba(255, HexDigit(h[0]) * 17, HexDigit(h[1]) * 17, HexDigit(h[2]) * 17)
  {
    ScanAllHex(h);
    TwoDigits(h, 0);
    assert h[..2] == h[0..2] && h[..3][..2] == h[..2] && h[..3] == h;
    assert HexValue(h) == (HexDigit(h[0]) * 16 + HexDigit(h[1])) * 16 + HexDigit(h[2]);
    ThreeNibbles(HexDigit(h[0]), HexDigit(h[1]), HexDigit(h[2]));
  }

  /** Any other length of the stripped input gives opaque black. */
  lemma OtherLengthIsBlack(hex: string)
    requires |Strip(hex)| != 3 && |Strip(hex)| != 6 && |Strip(hex)| != 8
    ensures ParseHex(hex) == Rgba(255, 0, 0, 0)
  {
  }

  lemma {:induction false} StripAlnum(h: string)
    requires AllHex(h)
    ensures Strip(h) == h
  {
    if |h| > 0 {
      assert IsAlnum(h[0]) && IsAlnum(h[|h| - 1]);
      assert h[0..|h|] == h;
    }
  }

  /** A leading `#` is not alphanumeric and is stripped: "#2AAA6A" is read as six digits. */
  lemma HashIsStripped()
    ensures Strip("#2AAA6A") == "2AAA6A"
    ensures ParseHex("#2AAA6A") == Rgba(255, 0x2A, 0xAA, 0x6A)
  {
    var s := "#2AAA6A";
    assert !IsAlnum(s[0]);
    assert LeadingJunk(s[1..]) == 0;
    assert LeadingJunk(s) == 1;
    assert TrailingJunk(s) == 0;
    assert s[1..7] == "2AAA6A";
    StripAlnum("2AAA6A");
    SixDigits("2AAA6A");
    assert Pair("2AAA6A", 0) == 0x2A && Pair("2AAA6A", 2) == 0xAA && Pair("2AAA6A", 4) == 0x6A;
  }

  // ---------------------------------------------------------------------------
  // Theme

  datatype ColorScheme = Light | Dark

  const BackgroundLight: string := "FFFFFF"
  const BackgroundDark: string := "121412"

  function Background(scheme: ColorScheme): Rgba {
    if scheme == Dark then ParseHex(BackgroundDark) else ParseHex(BackgroundLight)
  }

  /** The two backgrounds: white for light, #121412 for dark; the dark one is given exactly
      when the scheme is dark. */
  lemma Backgrounds(scheme: ColorScheme)
    ensures Background(Light) == Rgba(255, 255, 255, 255)
    ensures Background(Dark) == Rgba(255, 0x12, 0x14, 0x12)
    ensures Background(scheme) == Rgba(255, 0x12, 0x14, 0x12) <==> scheme == Dark
  {
    var light, dark := BackgroundLight, BackgroundDark;
    assert AllHex(light) && AllHex(dark);
    SixDigits(light);
    SixDigits(dark);
    assert Pair(light, 0) == 255 && Pair(light, 2) == 255 && Pair(light, 4) == 255;
    assert Pair(dark, 0) == 0x12 && Pair(dark, 2) == 0x14 && Pair(dark, 4) == 0x12;
  }
}

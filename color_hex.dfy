/**
 * The hex colour codec of the Color extension: `Color(hex:)` sanitises the
 * string, scans one hexadecimal integer and takes three channel bytes from
 * it; `toHex()` prints the first three colour components as `#RRGGBB`.
 */
module HexColor {
  import opened Wrappers
  import opened Domain

  // ---------------------------------------------------------------- characters

  /** Members of Foundation's `whitespacesAndNewlines`: Unicode Z* plus U+0009...U+000D and U+0085. */
  predicate IsWhitespaceOrNewline(c: char) {
    || ('\U{9}' <= c <= '\U{D}') || c == ' ' || c == '\U{85}' || c == '\U{A0}'
    || c == '\U{1680}' || ('\U{2000}' <= c <= '\U{200A}') || c == '\U{2028}' || c == '\U{2029}'
    || c == '\U{202F}' || c == '\U{205F}' || c == '\U{3000}'
  }

  predicate IsHexDigit(c: char) {
    ('0' <= c <= '9') || ('a' <= c <= 'f') || ('A' <= c <= 'F')
  }

  function HexDigitValue(c: char): (v: nat)
    requires IsHexDigit(c)
    ensures v < 16
  {
    if '0' <= c <= '9' then c as int - '0' as int
    else if 'a' <= c <= 'f' then c as int - 'a' as int + 10
    else c as int - 'A' as int + 10
  }

  /** The upper-case digit that `%X` prints for `d`. */
  function UpperHexDigit(d: nat): (c: char)
    requires d < 16
    ensures IsHexDigit(c) && HexDigitValue(c) == d
    ensures !('a' <= c <= 'f')
  {
    if d < 10 then ('0' as int + d) as char else ('A' as int + d - 10) as char
  }

  // ---------------------------------------------------------------- sanitising

  /** Drops leading whitespace and newlines. */
  function TrimStart(s: string): string {
    if s != [] && IsWhitespaceOrNewline(s[0]) then TrimStart(s[1..]) else s
  }

  /** `TrimStart` drops exactly the whitespace prefix: a suffix is left that does not start with whitespace. */
  lemma {:induction false} TrimStartIsSuffix(s: string)
    ensures var r := TrimStart(s);
      && |r| <= |s| && r == s[|s| - |r|..]
      && (forall i :: 0 <= i < |s| - |r| ==> IsWhitespaceOrNewline(s[i]))
      && (r != [] ==> !IsWhitespaceOrNewline(r[0]))
  {
    if s != [] && IsWhitespaceOrNewline(s[0]) {
      var t, r := s[1..], TrimStart(s);
      TrimStartIsSuffix(t);
      assert r == TrimStart(t);
      assert t[|t| - |r|..] == s[|s| - |r|..];
      forall i | 0 <= i < |s| - |r|
        ensures IsWhitespaceOrNewline(s[i])
      {
        if i > 0 {
          assert s[i] == t[i - 1];
        }
      }
    }
  }

  /** Drops trailing whitespace and newlines. */
  function TrimEnd(s: string): string {
    if s != [] && IsWhitespaceOrNewline(s[|s| - 1]) then TrimEnd(s[..|s| - 1]) else s
  }

  /** `TrimEnd` drops exactly the whitespace suffix: a prefix is left that does not end with whitespace. */
  lemma {:induction false} TrimEndIsPrefix(s: string)
    ensures var r := TrimEnd(s);
      && |r| <= |s| && r == s[..|r|]
      && (forall i :: |r| <= i < |s| ==> IsWhitespaceOrNewline(s[i]))
      && (r != [] ==> !IsWhitespaceOrNewline(r[|r| - 1]))
  {
    if s != [] && IsWhitespaceOrNewline(s[|s| - 1]) {
      TrimEndIsPrefix(s[..|s| - 1]);
    }
  }

  /** `trimmingCharacters(in: .whitespacesAndNewlines)`. */
  function Trim(s: string): string {
    TrimEnd(TrimStart(s))
  }

  /** Trimming leaves the infix of `s` between whitespace at both ends. */
  lemma TrimIsInfix(s: string)
    ensures var r := Trim(s);
      exists i, j ::
        && 0 <= i <= j <= |s| && r == s[i..j]
        && (forall k :: 0 <= k < i ==> IsWhitespaceOrNewline(s[k]))
        && (forall k :: j <= k < |s| ==> IsWhitespaceOrNewline(s[k]))
    ensures var r := Trim(s);
      r != [] ==> !IsWhitespaceOrNewline(r[0]) && !IsWhitespaceOrNewline(r[|r| - 1])
  {
    var t := TrimStart(s);
    var r := TrimEnd(t);
    TrimStartIsSuffix(s);
    TrimEndIsPrefix(t);
    assert r == s[|s| - |t|..|s| - |t| + |r|];
  }

  /** `replacingOccurrences(of: "#", with: "")`. */
  function RemoveHashes(s: string): string {
    if s == [] then []
    else if s[0] == '#' then RemoveHashes(s[1..])
    else [s[0]] + RemoveHashes(s[1..])
  }

  /** Removing `#` leaves no `#` and keeps every other character, as often as it occurs. */
  lemma {:induction false} RemoveHashesKeepsOthers(s: string)
    ensures '#' !in RemoveHashes(s)
    ensures forall c :: c != '#' ==> multiset(RemoveHashes(s))[c] == multiset(s)[c]
  {
    if s != [] {
      RemoveHashesKeepsOthers(s[1..]);
      assert s == [s[0]] + s[1..];
    }
  }

  /** The string the scanner reads: trimmed, then with every `#` removed. */
  function Sanitize(hex: string): string {
    RemoveHashes(Trim(hex))
  }

  // ---------------------------------------------------------------- scanning

  /** The value of a string of hex digits, most significant first. */
  function HexValue(s: string): nat
    requires forall i :: 0 <= i < |s| ==> IsHexDigit(s[i])
  {
    if s == [] then 0 else HexValue(s[..|s| - 1]) * 16 + HexDigitValue(s[|s| - 1])
  }

  /** The longest prefix of `s` made of hex digits. */
  function HexDigitsPrefix(s: string): (r: string)
    ensures |r| <= |s| && r == s[..|r|]
    ensures forall i :: 0 <= i < |r| ==> IsHexDigit(r[i])
    ensures |r| < |s| ==> !IsHexDigit(s[|r|])
  {
    if s != [] && IsHexDigit(s[0]) then
      var rest := HexDigitsPrefix(s[1..]);
      assert [s[0]] + rest == s[..|rest| + 1];
      [s[0]] + rest
    else []
  }

  const UInt64Max: nat := 0xFFFF_FFFF_FFFF_FFFF

  /**
   * `Scanner(string: s).scanHexInt64(&rgb)`, as this model takes it: skip
   * leading whitespace and newlines, skip a `0x` or `0X` that a hex digit
   * follows, read the longest run of hex digits; fail when there is none. A
   * value too large for 64 bits reads as the largest one.
   */
  function ScanHexInt64(s: string): (r: Option<nat>)
    ensures r.None? <==> TrimStart(s) == [] || !IsHexDigit(TrimStart(s)[0])
    ensures r.Some? ==> r.value <= UInt64Max
  {
    var t := TrimStart(s);
    var digits := HexDigitsPrefix(SkipHexPrefix(t));
    if digits == [] then None else Some(Saturate(HexValue(digits)))
  }

  /** Skips a leading `0x` or `0X` when a hex digit follows it. */
  function SkipHexPrefix(t: string): (r: string)
    ensures r == t || (|t| >= 2 && r == t[2..])
    ensures t != [] && IsHexDigit(t[0]) ==> r != [] && IsHexDigit(r[0])
  {
    if |t| >= 3 && t[0] == '0' && (t[1] == 'x' || t[1] == 'X') && IsHexDigit(t[2]) then t[2..] else t
  }

  /** A value too large for an unsigned 64-bit integer reads as the largest one. */
  function Saturate(v: nat): (r: nat)
    ensures r <= UInt64Max
    ensures v <= UInt64Max ==> r == v
  {
    if v <= UInt64Max then v else UInt64Max
  }

  // ---------------------------------------------------------------- channels

  /** A colour's three channel bytes. */
  datatype Rgb = Rgb(red: nat, green: nat, blue: nat)

  predicate IsByte(n: int) { 0 <= n < 256 }

  /** `(rgb & 0xFF0000) >> 16`, written as the equal division and remainder. */
  function RedByte(rgb: nat): nat { (rgb / 0x1_0000) % 0x100 }

  /** `(rgb & 0x00FF00) >> 8`. */
  function GreenByte(rgb: nat): nat { (rgb / 0x100) % 0x100 }

  /** `rgb & 0x0000FF`. */
  function BlueByte(rgb: nat): nat { rgb % 0x100 }

  /** The three channels of a scanned integer. */
  function Channels(rgb: nat): (c: Rgb)
    ensures IsByte(c.red) && IsByte(c.green) && IsByte(c.blue)
  {
    Rgb(RedByte(rgb), GreenByte(rgb), BlueByte(rgb))
  }

  /** Bits above the 24th do not affect the channels. */
  lemma {:induction false} ChannelsIgnoreHighBits(rgb: nat, k: nat)
    ensures Channels(rgb + k * 0x100_0000) == Channels(rgb)
  {
    var low := rgb % 0x100_0000;
    var high := rgb / 0x100_0000;
    assert rgb == high * 0x100_0000 + low;
    assert rgb + k * 0x100_0000 == (high + k) * 0x100_0000 + low;
    ChannelsOfSplit(high, low);
    ChannelsOfSplit(high + k, low);
  }

  /** Division and remainder are determined by `x == q * d + r` with `0 <= r < d`. */
  lemma DivModUnique(x: int, d: int, q: int, r: int)
    requires 0 < d && 0 <= r < d && x == q * d + r
    ensures x / d == q && x % d == r
  {
    var q', r' := x / d, x % d;
    assert (q - q') * d == r' - r;
    MulAtLeast(q - q', d);
    MulAtLeast(q' - q, d);
  }

  lemma MulAtLeast(a: int, d: int)
    ensures 1 <= a && 0 < d ==> d <= a * d
  {
    if 1 <= a && 0 < d {
      assert a * d == d + (a - 1) * d;
    }
  }

  /** The channels of `high * 2^24 + low` are those of `low`. */
  lemma ChannelsOfSplit(high: nat, low: nat)
    requires low < 0x100_0000
    ensures Channels(high * 0x100_0000 + low) == Channels(low)
  {
    var x := high * 0x100_0000 + low;
    var q2, r2 := low / 0x1_0000, low % 0x1_0000;
    var q1, r1 := low / 0x100, low % 0x100;
    DivModUnique(low, 0x1_0000, q2, r2);
    DivModUnique(x, 0x1_0000, high * 0x100 + q2, r2);
    DivModUnique(high * 0x100 + q2, 0x100, high, q2);
    DivModUnique(q2, 0x100, 0, q2);
    DivModUnique(low, 0x100, q1, r1);
    DivModUnique(x, 0x100, high * 0x1_0000 + q1, r1);
    DivModUnique(high * 0x1_0000 + q1, 0x100, high * 0x100 + q1 / 0x100, q1 % 0x100);
    DivModUnique(x, 0x100, x / 0x100, r1);
  }

  /** The channels of the 24-bit value `r g b` are `r`, `g` and `b`. */
  lemma ChannelsOfBytes(c: Rgb)
    requires IsByte(c.red) && IsByte(c.green) && IsByte(c.blue)
    ensures Channels(c.red * 0x1_0000 + c.green * 0x100 + c.blue) == c
  {
    var r, g, b := c.red, c.green, c.blue;
    var x := r * 0x1_0000 + g * 0x100 + b;
    DivModUnique(x, 0x1_0000, r, g * 0x100 + b);
    DivModUnique(r, 0x100, 0, r);
    DivModUnique(x, 0x100, r * 0x100 + g, b);
    DivModUnique(r * 0x100 + g, 0x100, r, g);
  }

  /** `Color(hex:)` at the byte level: the channels of the scanned integer. */
  function ParseHexColor(hex: string): Option<Rgb> {
    match ScanHexInt64(Sanitize(hex))
    case None => None
    case Some(rgb) => Some(Channels(rgb))
  }

  /**
   * `Color(hex:)` is nil exactly when, after sanitising and skipping leading
   * whitespace, no hex digit is left to read; otherwise it holds three bytes.
   */
  lemma ParseHexColorFails(hex: string)
    ensures var t := TrimStart(Sanitize(hex));
      ParseHexColor(hex).None? <==> t == [] || !IsHexDigit(t[0])
    ensures ParseHexColor(hex).Some? ==>
      var c := ParseHexColor(hex).value;
      IsByte(c.red) && IsByte(c.green) && IsByte(c.blue)
  {
  }

  /**
   * The colour `Color(red:green:blue:)` builds from channel bytes: each divided
   * by 255, fully opaque, in the RGBA component order the platform reports.
   */
  function ColorOf(c: Rgb): (color: Color)
    ensures color.components.Some? && |color.components.value| == 4
  {
    Color(Some([c.red as real / 255.0, c.green as real / 255.0, c.blue as real / 255.0, 1.0]))
  }

  /** `Color(hex:)`. */
  function ColorFromHex(hex: string): (r: Option<Color>)
    ensures r.Some? <==> ParseHexColor(hex).Some?
  {
    match ParseHexColor(hex)
    case None => None
    case Some(c) => Some(ColorOf(c))
  }

  // ---------------------------------------------------------------- formatting

  /** `%lX`: the upper-case hex digits of `n`, no leading zeros. */
  function UpperHex(n: nat): (s: string)
    ensures 1 <= |s|
    ensures forall i :: 0 <= i < |s| ==> IsHexDigit(s[i]) && !('a' <= s[i] <= 'f')
    ensures HexValue(s) == n
    ensures n < 16 <==> |s| == 1
    ensures 16 <= n < 256 ==> |s| == 2
  {
    if n < 16 then [UpperHexDigit(n)]
    else
      var s := UpperHex(n / 16) + [UpperHexDigit(n % 16)];
      assert s[..|s| - 1] == UpperHex(n / 16);
      s
  }

  /** `%02lX` of a 64-bit integer: printed as unsigned, left-padded with `0` to two digits. */
  function Format02lX(n: int): (s: string)
    ensures 2 <= |s|
  {
    var u := UpperHex(n % 0x1_0000_0000_0000_0000);
    if |u| < 2 then ['0'] + u else u
  }

  /** Two upper-case hex digits for a byte. */
  function HexByte(n: nat): (s: string)
    requires IsByte(n)
    ensures |s| == 2
    ensures forall i :: 0 <= i < 2 ==> IsHexDigit(s[i]) && !('a' <= s[i] <= 'f')
    ensures HexValue(s) == n
  {
    var hi := [UpperHexDigit(n / 16)];
    assert hi[..0] == [];
    assert HexValue(hi) == n / 16;
    var s := hi + [UpperHexDigit(n % 16)];
    assert s[..1] == hi;
    s
  }

  /** For a byte, `%02lX` prints exactly its two-digit form. */
  lemma Format02lXOfByte(n: nat)
    requires IsByte(n)
    ensures Format02lX(n) == HexByte(n)
  {
    assert n % 0x1_0000_0000_0000_0000 == n;
    if n >= 16 {
      assert UpperHex(n / 16) == [UpperHexDigit(n / 16)];
      assert UpperHex(n) == [UpperHexDigit(n / 16)] + [UpperHexDigit(n % 16)];
    } else {
      assert UpperHex(n) == [UpperHexDigit(n)];
      assert n / 16 == 0 && n % 16 == n;
    }
  }

  /** Swift's `Int(x)`: truncation toward zero. */
  function TruncateToInt(x: real): (n: int)
    ensures 0.0 <= x ==> 0.0 <= n as real <= x < n as real + 1.0
    ensures x < 0.0 ==> x <= n as real <= 0.0
  {
    if x >= 0.0 then x.Floor else -((-x).Floor)
  }

  /** The three channel values `toHex()` prints, from components 0, 1 and 2 (missing ones read as 0). */
  function ComponentBytes(components: seq<real>): (r: (int, int, int))
    ensures r.0 == TruncateToInt((if |components| > 0 then components[0] else 0.0) * 255.0)
    ensures r.1 == TruncateToInt((if |components| > 1 then components[1] else 0.0) * 255.0)
    ensures r.2 == TruncateToInt((if |components| > 2 then components[2] else 0.0) * 255.0)
  {
    var r := if |components| > 0 then components[0] else 0.0;
    var g := if |components| > 1 then components[1] else 0.0;
    var b := if |components| > 2 then components[2] else 0.0;
    (TruncateToInt(r * 255.0), TruncateToInt(g * 255.0), TruncateToInt(b * 255.0))
  }

  /** `toHex()`: nil without components, else `#` and `%02lX` of each of the three channel values. */
  function ToHex(color: Color): (r: Option<string>)
    ensures r.None? <==> color.components.None?
    ensures r.Some? ==> |r.value| >= 7 && r.value[0] == '#'
  {
    match color.components
    case None => None
    case Some(cs) =>
      var (r, g, b) := ComponentBytes(cs);
      Some("#" + Format02lX(r) + Format02lX(g) + Format02lX(b))
  }

  /** The six upper-case hex digits `RRGGBB` of three channel bytes. */
  function HexDigits(c: Rgb): (d: string)
    requires IsByte(c.red) && IsByte(c.green) && IsByte(c.blue)
    ensures |d| == 6 && forall i :: 0 <= i < 6 ==> IsHexDigit(d[i])
  {
    HexByte(c.red) + HexByte(c.green) + HexByte(c.blue)
  }

  /** `#RRGGBB` for three channel bytes. */
  function HexString(c: Rgb): string
    requires IsByte(c.red) && IsByte(c.green) && IsByte(c.blue)
  {
    "#" + HexDigits(c)
  }

  /** `#RRGGBB` is seven characters: `#` and six upper-case hex digits. */
  lemma HexStringShape(c: Rgb)
    requires IsByte(c.red) && IsByte(c.green) && IsByte(c.blue)
    ensures var s := HexString(c);
      |s| == 7 && s[0] == '#' &&
      forall i :: 1 <= i < 7 ==> IsHexDigit(s[i]) && !('a' <= s[i] <= 'f')
  {
    var r, g, b := HexByte(c.red), HexByte(c.green), HexByte(c.blue);
    assert HexString(c) == "#" + r + g + b;
  }

  predicate InUnitInterval(x: real) { 0.0 <= x <= 1.0 }

  /** A component in [0, 1] prints as a byte. */
  lemma UnitComponentIsByte(x: real)
    requires InUnitInterval(x)
    ensures IsByte(TruncateToInt(x * 255.0))
  {
  }

  /**
   * When the three components are in [0, 1], `toHex()` gives `#` followed by
   * exactly six upper-case hex digits, those of the truncated channel values.
   */
  lemma {:induction false} ToHexOfUnitComponents(components: seq<real>)
    requires |components| >= 3
    requires InUnitInterval(components[0]) && InUnitInterval(components[1]) && InUnitInterval(components[2])
    ensures var (r, g, b) := ComponentBytes(components);
      IsByte(r) && IsByte(g) && IsByte(b) &&
      ToHex(Color(Some(components))) == Some(HexString(Rgb(r, g, b)))
  {
    var (r, g, b) := ComponentBytes(components);
    UnitComponentIsByte(components[0]);
    UnitComponentIsByte(components[1]);
    UnitComponentIsByte(components[2]);
    Format02lXOfByte(r);
    Format02lXOfByte(g);
    Format02lXOfByte(b);
    assert HexString(Rgb(r, g, b)) == "#" + HexByte(r) + HexByte(g) + HexByte(b);
  }
}

/**
 * Round trips of the hex colour codec: `#RRGGBB` printed from three channel
 * bytes parses back to them, and the colour built from it prints back as the
 * same string.
 */
module HexColorRoundTrip {
  import opened Wrappers
  import opened Domain
  import opened HexColor

  lemma {:induction false} HexValueAppend(a: string, b: string)
    requires forall i :: 0 <= i < |a| ==> IsHexDigit(a[i])
    requires forall i :: 0 <= i < |b| ==> IsHexDigit(b[i])
    ensures forall i :: 0 <= i < |a + b| ==> IsHexDigit((a + b)[i])
    ensures HexValue(a + b) == HexValue(a) * Pow16(|b|) + HexValue(b)
    decreases |b|
  {
    if b == [] {
      assert a + b == a;
    } else {
      var b' := b[..|b| - 1];
      var d := HexDigitValue(b[|b| - 1]);
      assert (a + b)[..|a + b| - 1] == a + b';
      HexValueAppend(a, b');
      var x, p := HexValue(a), Pow16(|b'|);
      assert HexValue(a + b) == (x * p + HexValue(b')) * 16 + d;
      assert HexValue(b) == HexValue(b') * 16 + d;
      assert Pow16(|b|) == p * 16;
      ShiftDistributes(x, p, HexValue(b'), d);
    }
  }

  lemma ShiftDistributes(x: nat, p: nat, y: nat, d: nat)
    ensures (x * p + y) * 16 + d == x * (p * 16) + (y * 16 + d)
  {
  }

  function Pow16(n: nat): nat {
    if n == 0 then 1 else Pow16(n - 1) * 16
  }

  /** `#RRGGBB` passes through sanitising as its six digits. */
  lemma SanitizeHexString(c: Rgb)
    requires IsByte(c.red) && IsByte(c.green) && IsByte(c.blue)
    ensures Sanitize(HexString(c)) == HexDigits(c)
  {
    var s, d := HexString(c), HexDigits(c);
    assert TrimStart(s) == s;
    assert TrimEnd(s) == s;
    assert Trim(s) == s;
    assert s == ['#'] + d;
    assert RemoveHashes(s) == RemoveHashes(d);
    NoHashUnchanged(d);
  }

  lemma {:induction false} NoHashUnchanged(s: string)
    requires '#' !in s
    ensures RemoveHashes(s) == s
  {
    if s != [] {
      NoHashUnchanged(s[1..]);
    }
  }

  /** A string of hex digits is its own longest hex-digit prefix. */
  lemma {:induction false} HexDigitsPrefixOfDigits(d: string)
    requires forall i :: 0 <= i < |d| ==> IsHexDigit(d[i])
    ensures HexDigitsPrefix(d) == d
  {
    if d != [] {
      HexDigitsPrefixOfDigits(d[1..]);
    }
  }

  /** Scanning a run of hex digits that starts with neither whitespace nor `0x` reads all of them. */
  lemma ScanDigits(d: string)
    requires |d| >= 2 && forall i :: 0 <= i < |d| ==> IsHexDigit(d[i])
    requires HexValue(d) <= UInt64Max
    ensures ScanHexInt64(d) == Some(HexValue(d))
  {
    TrimStartOfHexDigit(d);
    SkipHexPrefixOfDigits(d);
    HexDigitsPrefixOfDigits(d);
  }

  lemma TrimStartOfHexDigit(s: string)
    requires s != [] && IsHexDigit(s[0])
    ensures TrimStart(s) == s
  {
  }

  lemma SkipHexPrefixOfDigits(d: string)
    requires |d| >= 2 && IsHexDigit(d[1])
    ensures SkipHexPrefix(d) == d
  {
  }

  /** The scanner reads `#RRGGBB` as the 24-bit value `r g b`. */
  lemma ScanHexString(c: Rgb)
    requires IsByte(c.red) && IsByte(c.green) && IsByte(c.blue)
    ensures ScanHexInt64(Sanitize(HexString(c))) == Some(c.red * 0x1_0000 + c.green * 0x100 + c.blue)
  {
    var s, d := HexString(c), HexDigits(c);
    assert Sanitize(s) == d by {
      SanitizeHexString(c);
    }
    assert HexValue(d) == c.red * 0x1_0000 + c.green * 0x100 + c.blue by {
      HexDigitsValue(c);
    }
    assert ScanHexInt64(Sanitize(s)) == Some(HexValue(d)) by {
      ScanSanitized(s, d);
    }
  }

  lemma ScanSanitized(s: string, d: string)
    requires Sanitize(s) == d
    requires |d| >= 2 && forall i :: 0 <= i < |d| ==> IsHexDigit(d[i])
    requires HexValue(d) <= UInt64Max
    ensures ScanHexInt64(Sanitize(s)) == Some(HexValue(d))
  {
    ScanDigits(d);
  }

  /** `RRGGBB` reads back as the 24-bit value `r g b`. */
  lemma HexDigitsValue(c: Rgb)
    requires IsByte(c.red) && IsByte(c.green) && IsByte(c.blue)
    ensures HexValue(HexDigits(c)) == c.red * 0x1_0000 + c.green * 0x100 + c.blue
  {
    var r, g, b := HexByte(c.red), HexByte(c.green), HexByte(c.blue);
    assert HexDigits(c) == r + g + b;
    HexValueAppend(r, g);
    assert Pow16(2) == 0x100;
    HexValueAppend(r + g, b);
  }

  /**
   * Byte-level round trip: parsing `#RRGGBB` printed from three channel bytes
   * gives those bytes back.
   */
  lemma {:induction false} HexStringRoundTrip(c: Rgb)
    requires IsByte(c.red) && IsByte(c.green) && IsByte(c.blue)
    ensures ParseHexColor(HexString(c)) == Some(c)
  {
    ParseHexString(c);
    ChannelsOfBytes(c);
  }

  /** Parsing `#RRGGBB` gives the channels of the 24-bit value `r g b`. */
  lemma ParseHexString(c: Rgb)
    requires IsByte(c.red) && IsByte(c.green) && IsByte(c.blue)
    ensures ParseHexColor(HexString(c)) == Some(Channels(c.red * 0x1_0000 + c.green * 0x100 + c.blue))
  {
    ScanHexString(c);
  }

  /**
   * Colour-level round trip: a colour built from `#RRGGBB` prints back as the
   * same `#RRGGBB`.
   */
  lemma {:induction false} ColorHexRoundTrip(c: Rgb)
    requires IsByte(c.red) && IsByte(c.green) && IsByte(c.blue)
    ensures ColorFromHex(HexString(c)) == Some(ColorOf(c))
    ensures ToHex(ColorOf(c)) == Some(HexString(c))
  {
    HexStringRoundTrip(c);
    ToHexOfColorOf(c);
  }

  /** The colour built from three channel bytes prints as their `#RRGGBB`. */
  lemma {:induction false} ToHexOfColorOf(c: Rgb)
    requires IsByte(c.red) && IsByte(c.green) && IsByte(c.blue)
    ensures ToHex(ColorOf(c)) == Some(HexString(c))
  {
    var cs := ColorOf(c).components.value;
    assert ComponentBytes(cs) == (c.red, c.green, c.blue) by {
      ByteScalesBack(c.red);
      ByteScalesBack(c.green);
      ByteScalesBack(c.blue);
    }
    assert InUnitInterval(cs[0]) && InUnitInterval(cs[1]) && InUnitInterval(cs[2]);
    ToHexOfUnitComponents(cs);
  }

  /** A channel byte divided by 255, scaled back by 255 and truncated is the byte again. */
  lemma ByteScalesBack(n: nat)
    ensures (n as real / 255.0) * 255.0 == n as real
    ensures TruncateToInt((n as real / 255.0) * 255.0) == n
  {
  }
}

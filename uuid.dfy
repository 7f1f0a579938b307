/** The `crypto.randomUUID` fallback that `initCrypto` installs: sixteen
    random bytes, the version and variant bits of RFC 4122 (sections 4.1.3
    and 4.1.1) set on bytes 6 and 8, as lowercase hex in the 8-4-4-4-12
    layout of section 3 of RFC 4122. The random bytes are an input. */
module Uuid {
  import opened Common

  /* ---------------- bytes ---------------- */

  /** `(b & 0x0f) | 0x40`: version 4 in the high nibble. */
  function VersionByte(b: bv8): (r: bv8)
    ensures 0x40 <= r <= 0x4f && r as int / 16 == 4
    ensures r & 0x0f == b & 0x0f
  {
    (b & 0x0f) | 0x40
  }

  /** `(b & 0x3f) | 0x80`: the variant bits `10` on top. */
  function VariantByte(b: bv8): (r: bv8)
    ensures 0x80 <= r <= 0xbf && r as int / 64 == 2
    ensures r & 0x3f == b & 0x3f
  {
    (b & 0x3f) | 0x80
  }

  /** The bytes after the two in-place masks. */
  function Stamped(bytes: seq<bv8>): (r: seq<bv8>)
    requires |bytes| == 16
    ensures |r| == 16
    ensures forall i :: 0 <= i < 16 && i != 6 && i != 8 ==> r[i] == bytes[i]
  {
    bytes[6 := VersionByte(bytes[6])][8 := VariantByte(bytes[8])]
  }

  /* ---------------- hex text ---------------- */

  const HexDigits: string := "0123456789abcdef"

  function HexDigit(n: int): (c: char)
    requires 0 <= n < 16
  {
    HexDigits[n]
  }

  /** The value of a lowercase hex digit (0 for any other character). */
  function HexValue(c: char): (n: nat)
    ensures n < 16
  {
    if '0' <= c <= '9' then c as int - '0' as int
    else if 'a' <= c <= 'f' then c as int - 'a' as int + 10
    else 0
  }

  predicate IsHexDigit(c: char) { '0' <= c <= '9' || 'a' <= c <= 'f' }

  lemma HexDigitValue(n: int)
    requires 0 <= n < 16
    ensures IsHexDigit(HexDigit(n)) && HexValue(HexDigit(n)) == n
  {
  }

  /** `b.toString(16).padStart(2, '0')`. */
  function Hex2(b: bv8): (s: string)
    ensures |s| == 2
  {
    [HexDigit(b as int / 16), HexDigit(b as int % 16)]
  }

  /** `[...bytes].map(...).join('')`. */
  function HexOf(bytes: seq<bv8>): (s: string)
    ensures |s| == 2 * |bytes|
    decreases |bytes|
  {
    if bytes == [] then []
    else HexOf(bytes[..|bytes| - 1]) + Hex2(bytes[|bytes| - 1])
  }

  lemma HexOfSnoc(init: seq<bv8>, last: bv8)
    ensures HexOf(init + [last]) == HexOf(init) + Hex2(last)
  {
    assert (init + [last])[..|init|] == init;
  }

  /** The rendering is lowercase hex digits only. */
  lemma {:induction false} HexOfDigits(bytes: seq<bv8>)
    ensures forall i :: 0 <= i < |HexOf(bytes)| ==> IsHexDigit(HexOf(bytes)[i])
    decreases |bytes|
  {
    if bytes != [] {
      var init, last := bytes[..|bytes| - 1], bytes[|bytes| - 1];
      assert bytes == init + [last];
      HexOfSnoc(init, last);
      HexOfDigits(init);
      HexDigitValue(last as int / 16);
      HexDigitValue(last as int % 16);
    }
  }

  /** The 8-4-4-4-12 grouping of a 32-digit hex text. */
  function Layout(hex: string): (u: string)
    requires |hex| == 32
    ensures |u| == 36
  {
    hex[..8] + "-" + hex[8..12] + "-" + hex[12..16] + "-" + hex[16..20] + "-" + hex[20..]
  }

  /** What the fallback returns for the sixteen bytes it drew. */
  function RandomUuid(bytes: seq<bv8>): string
    requires |bytes| == 16
  {
    Layout(HexOf(Stamped(bytes)))
  }

  /* ---------------- reading it back ---------------- */

  /** The text with its hyphens removed. */
  function Strip(s: string): (r: string)
    decreases |s|
  {
    if s == [] then []
    else Strip(s[..|s| - 1]) + (if s[|s| - 1] == '-' then [] else [s[|s| - 1]])
  }

  /** Pairs of hex digits read back as bytes. */
  function Decode(hex: string): (bytes: seq<bv8>)
    decreases |hex|
  {
    if |hex| < 2 then []
    else
      var n := |hex|;
      Decode(hex[..n - 2]) + [(HexValue(hex[n - 2]) * 16 + HexValue(hex[n - 1])) as bv8]
  }

  lemma {:induction false} StripAppend(a: string, b: string)
    ensures Strip(a + b) == Strip(a) + Strip(b)
    decreases |b|
  {
    if b == [] {
      assert a + b == a;
    } else {
      assert (a + b)[..|a + b| - 1] == a + b[..|b| - 1];
      StripAppend(a, b[..|b| - 1]);
    }
  }

  lemma {:induction false} StripPlain(s: string)
    requires forall i :: 0 <= i < |s| ==> IsHexDigit(s[i])
    ensures Strip(s) == s
    decreases |s|
  {
    if s != [] {
      StripPlain(s[..|s| - 1]);
    }
  }

  /** The two digits of a byte read back as that byte. */
  lemma Hex2Value(b: bv8)
    ensures (HexValue(Hex2(b)[0]) * 16 + HexValue(Hex2(b)[1])) as bv8 == b
  {
    HexDigitValue(b as int / 16);
    HexDigitValue(b as int % 16);
    ByteParts(b);
  }

  lemma ByteParts(b: bv8)
    ensures ((b as int / 16) * 16 + b as int % 16) as bv8 == b
  {
  }

  lemma DecodePair(h: string, c1: char, c2: char)
    ensures Decode(h + [c1, c2]) == Decode(h) + [(HexValue(c1) * 16 + HexValue(c2)) as bv8]
  {
    var x := h + [c1, c2];
    assert x[..|x| - 2] == h;
  }

  /** Decoding undoes the hex rendering. */
  lemma {:induction false} DecodeHexOf(bytes: seq<bv8>)
    ensures Decode(HexOf(bytes)) == bytes
    decreases |bytes|
  {
    if bytes != [] {
      var init, last := bytes[..|bytes| - 1], bytes[|bytes| - 1];
      assert bytes == init + [last];
      HexOfSnoc(init, last);
      var d := Hex2(last);
      assert d == [d[0], d[1]];
      DecodePair(HexOf(init), d[0], d[1]);
      DecodeHexOf(init);
      Hex2Value(last);
    }
  }

  lemma StripHyphen(h: string)
    requires h == "-"
    ensures Strip(h) == []
  {
    assert h[..0] == [];
  }

  lemma StripDash(x: string, h: string, y: string)
    requires h == "-"
    requires forall i :: 0 <= i < |y| ==> IsHexDigit(y[i])
    ensures Strip(x + h + y) == Strip(x) + y
  {
    StripHyphen(h);
    StripAppend(x, h);
    StripAppend(x + h, y);
    StripPlain(y);
  }

  lemma StripLayout(hex: string)
    requires |hex| == 32 && forall i :: 0 <= i < 32 ==> IsHexDigit(hex[i])
    ensures Strip(Layout(hex)) == hex
  {
    var a, b, c, d, e := hex[..8], hex[8..12], hex[12..16], hex[16..20], hex[20..];
    var h := "-";
    assert Layout(hex) == a + h + b + h + c + h + d + h + e;
    StripPlain(a);
    StripDash(a, h, b);
    StripDash(a + h + b, h, c);
    StripDash(a + h + b + h + c, h, d);
    StripDash(a + h + b + h + c + h + d, h, e);
    assert a + b + c + d + e == hex;
  }

  /** Without its hyphens the identifier is 32 hex digits that read back as
      the drawn bytes with the version and variant bits set. */
  lemma UuidRoundTrip(bytes: seq<bv8>)
    requires |bytes| == 16
    ensures Decode(Strip(RandomUuid(bytes))) == Stamped(bytes)
  {
    HexOfDigits(Stamped(bytes));
    StripLayout(HexOf(Stamped(bytes)));
    DecodeHexOf(Stamped(bytes));
  }

  /** Byte `k` of the input sits at digits `2k` and `2k+1` of the hex text. */
  lemma {:induction false} HexAt(bytes: seq<bv8>, k: nat)
    requires k < |bytes|
    ensures HexOf(bytes)[2 * k..2 * k + 2] == Hex2(bytes[k])
    decreases |bytes|
  {
    var init, last := bytes[..|bytes| - 1], bytes[|bytes| - 1];
    assert bytes == init + [last];
    HexOfSnoc(init, last);
    var a := HexOf(init);
    if k < |init| {
      HexAt(init, k);
      assert (a + Hex2(last))[2 * k..2 * k + 2] == a[2 * k..2 * k + 2];
    } else {
      assert (a + Hex2(last))[|a|..] == Hex2(last);
    }
  }

  /** The layout: 36 characters, hyphens at 8, 13, 18 and 23 and hex digits
      elsewhere, a `4` at 14 (the version) and one of `8 9 a b` at 19 (the
      variant). */
  lemma UuidShape(bytes: seq<bv8>)
    requires |bytes| == 16
    ensures var u := RandomUuid(bytes);
            && |u| == 36
            && u[8] == '-' && u[13] == '-' && u[18] == '-' && u[23] == '-'
            && (forall i :: 0 <= i < 36 && i != 8 && i != 13 && i != 18 && i != 23 ==> IsHexDigit(u[i]))
            && u[14] == '4'
            && (u[19] == '8' || u[19] == '9' || u[19] == 'a' || u[19] == 'b')
  {
    var s := Stamped(bytes);
    var hex := HexOf(s);
    HexOfDigits(s);
    HexAt(s, 6);
    HexAt(s, 8);
    assert hex[12] == Hex2(s[6])[0] && hex[16] == Hex2(s[8])[0];
    var u := RandomUuid(bytes);
    assert u[14] == hex[12] && u[19] == hex[16];
    forall i | 0 <= i < 36 && i != 8 && i != 13 && i != 18 && i != 23 ensures IsHexDigit(u[i]) {
      if i < 8 { assert u[i] == hex[i]; }
      else if i < 13 { assert u[i] == hex[i - 1]; }
      else if i < 18 { assert u[i] == hex[i - 2]; }
      else if i < 23 { assert u[i] == hex[i - 3]; }
      else { assert u[i] == hex[i - 4]; }
    }
  }

  /* ---------------- the generator and its installation ---------------- */

  /** `new Uint8Array(16)` filled with the drawn bytes. */
  method FillBuffer(random: seq<bv8>) returns (bytes: array<bv8>)
    requires |random| == 16
    ensures fresh(bytes) && bytes.Length == 16 && bytes[..] == random
  {
    bytes := new bv8[16];
    for i := 0 to 16
      invariant bytes[..i] == random[..i]
    {
      bytes[i] := random[i];
    }
    assert bytes[..] == bytes[..16];
  }

  /** `[...bytes].map(b => b.toString(16).padStart(2, '0')).join('')`. */
  method HexText(bytes: array<bv8>) returns (hex: string)
    ensures hex == HexOf(bytes[..])
  {
    hex := "";
    for i := 0 to bytes.Length
      invariant hex == HexOf(bytes[..i])
    {
      assert bytes[..i + 1][..i] == bytes[..i];
      hex := hex + Hex2(bytes[i]);
    }
    assert bytes[..bytes.Length] == bytes[..];
  }

  /** The fallback body: fill a 16-byte buffer, stamp bytes 6 and 8 in
      place, render. */
  method Generate(random: seq<bv8>) returns (u: string)
    requires |random| == 16
    ensures u == RandomUuid(random)
  {
    var bytes := FillBuffer(random);
    bytes[6] := (bytes[6] & 0x0f) | 0x40;
    bytes[8] := (bytes[8] & 0x3f) | 0x80;
    assert bytes[..] == Stamped(random);
    var hex := HexText(bytes);
    u := hex[..8] + "-" + hex[8..12] + "-" + hex[12..16] + "-" + hex[16..20] + "-" + hex[20..];
  }

  /** Where the generator comes from: the browser's own, or this fallback. */
  datatype Impl = Native | Fallback

  /** The `crypto` object, as far as `initCrypto` looks at it. */
  class Crypto {
    var randomUUID: Option<Impl>
    var getRandomValues: bool

    constructor (randomUUID: Option<Impl>, getRandomValues: bool)
      ensures this.randomUUID == randomUUID && this.getRandomValues == getRandomValues
    {
      this.randomUUID := randomUUID;
      this.getRandomValues := getRandomValues;
    }
  }

  class Window {
    var crypto: Crypto?

    constructor (crypto: Crypto?)
      ensures this.crypto == crypto
    {
      this.crypto := crypto;
    }
  }

  /** `initCrypto()`: an empty `crypto` object where there is none, and the
      fallback installed only where no `randomUUID` exists; an existing
      generator is left alone. */
  method InitCrypto(w: Window)
    modifies w, w.crypto
    ensures w.crypto != null
    ensures old(w.crypto) != null ==> w.crypto == old(w.crypto)
    ensures old(w.crypto) != null ==> w.crypto.getRandomValues == old(w.crypto.getRandomValues)
    ensures old(w.crypto) != null && old(w.crypto.randomUUID).Some? ==>
              w.crypto.randomUUID == old(w.crypto.randomUUID)
    ensures old(w.crypto) != null && old(w.crypto.randomUUID).None? ==> w.crypto.randomUUID == Some(Fallback)
    ensures old(w.crypto) == null ==> fresh(w.crypto) && w.crypto.randomUUID == Some(Fallback) && !w.crypto.getRandomValues
  {
    if w.crypto == null {
      w.crypto := new Crypto(None, false);
    }
    if w.crypto.randomUUID.None? {
      w.crypto.randomUUID := Some(Fallback);
    }
  }
}

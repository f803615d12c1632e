/**
  Digest text: UTF-8, lowercase hex and the `sha256:<hex>` rendering.

  `Sha256` is left uninterpreted: nothing below or in the modules that import
  this one depends on which 32 bytes it returns.
 */
module Digests {
  import opened Basics
  import CanonicalJson

  type Digest = b: Bytes | |b| == 32 witness seq(32, _ => 0)

  const Sha256: Bytes -> Digest

  // ----- UTF-8 -------------------------------------------------------------

  function Utf8Char(c: char): (r: Bytes)
    ensures 1 <= |r| <= 4
  {
    var n := c as int;
    var n6 := n / 64;
    var n12 := n6 / 64;
    var n18 := n12 / 64;
    if n < 0x80 then [n as byte]
    else if n < 0x800 then [(0xC0 + n6) as byte, (0x80 + n % 64) as byte]
    else if n < 0x10000 then [(0xE0 + n12) as byte, (0x80 + n6 % 64) as byte, (0x80 + n % 64) as byte]
    else [(0xF0 + n18) as byte, (0x80 + n12 % 64) as byte, (0x80 + n6 % 64) as byte, (0x80 + n % 64) as byte]
  }

  /** The bytes spell the character's number, six bits to a byte after the first, which tells how many follow. */
  lemma Utf8Spells(c: char)
    ensures var n, r := c as int, Utf8Char(c);
            (forall i :: 0 < i < |r| ==> 128 <= r[i] as int < 192) &&
            (|r| == 1 ==> r[0] as int == n && n < 128) &&
            (|r| == 2 ==> 128 <= n < 2048 && (r[0] as int - 192) * 64 + (r[1] as int - 128) == n) &&
            (|r| == 3 ==>
               2048 <= n < 65536 &&
               ((r[0] as int - 224) * 64 + (r[1] as int - 128)) * 64 + (r[2] as int - 128) == n) &&
            (|r| == 4 ==>
               65536 <= n &&
               (((r[0] as int - 240) * 64 + (r[1] as int - 128)) * 64 + (r[2] as int - 128)) * 64 + (r[3] as int - 128) == n)
  {
  }

  function Utf8(s: string): Bytes {
    if s == "" then [] else Utf8Char(s[0]) + Utf8(s[1..])
  }

  /** The first byte of a character tells its length, and the bytes the character. */
  lemma Utf8CharSelfDelimiting(c: char, d: char, x: Bytes, y: Bytes)
    requires Utf8Char(c) + x == Utf8Char(d) + y
    ensures c == d && x == y
  {
    var p, q := Utf8Char(c), Utf8Char(d);
    var s := p + x;
    assert s[0] == p[0] == q[0];
    assert |p| == |q|;
    assert s[..|p|] == p && (q + y)[..|p|] == q;
    assert x == s[|p|..] && y == (q + y)[|p|..];
    Utf8CharInjective(c, d);
  }

  lemma Utf8CharInjective(c: char, d: char)
    requires Utf8Char(c) == Utf8Char(d)
    ensures c == d
  {
    var p, q := Utf8Char(c), Utf8Char(d);
    var n, m := c as int, d as int;
    assert p[0] == q[0];
    if |p| == 2 {
      assert p[1] == q[1];
      assert n / 64 == m / 64 && n % 64 == m % 64;
    } else if |p| == 3 {
      assert p[1] == q[1] && p[2] == q[2];
      assert n / 64 / 64 == m / 64 / 64 && n / 64 % 64 == m / 64 % 64 && n % 64 == m % 64;
      assert n / 64 == m / 64;
    } else if |p| == 4 {
      assert p[1] == q[1] && p[2] == q[2] && p[3] == q[3];
      assert n / 64 / 64 / 64 == m / 64 / 64 / 64 && n / 64 / 64 % 64 == m / 64 / 64 % 64;
      assert n / 64 / 64 == m / 64 / 64 && n / 64 % 64 == m / 64 % 64 && n % 64 == m % 64;
      assert n / 64 == m / 64;
    }
  }

  lemma {:induction false} Utf8Injective(a: string, b: string)
    requires Utf8(a) == Utf8(b)
    ensures a == b
  {
    if a != "" && b != "" {
      Utf8CharSelfDelimiting(a[0], b[0], Utf8(a[1..]), Utf8(b[1..]));
      Utf8Injective(a[1..], b[1..]);
      assert a == [a[0]] + a[1..] && b == [b[0]] + b[1..];
    }
  }

  // ----- Hex ---------------------------------------------------------------

  function HexEncode(bytes: Bytes): string {
    if bytes == [] then ""
    else [CanonicalJson.HexDigit(bytes[0] as int / 16), CanonicalJson.HexDigit(bytes[0] as int % 16)] + HexEncode(bytes[1..])
  }

  method HexEncodeInto(bytes: Bytes) returns (out: string)
    ensures out == HexEncode(bytes)
  {
    out := "";
    for i := 0 to |bytes|
      invariant out + HexEncode(bytes[i..]) == HexEncode(bytes)
    {
      assert bytes[i..][1..] == bytes[i + 1..];
      out := out + [CanonicalJson.HexDigit(bytes[i] as int / 16)];
      out := out + [CanonicalJson.HexDigit(bytes[i] as int % 16)];
    }
  }

  /** The value of one hex digit of either case, or -1. */
  function ToDigit(c: char): (v: int)
    ensures -1 <= v < 16
  {
    if '0' <= c <= '9' then c as int - '0' as int
    else if 'a' <= c <= 'f' then c as int - 'a' as int + 10
    else if 'A' <= c <= 'F' then c as int - 'A' as int + 10
    else -1
  }

  function HexDecode(hex: string): Option<Bytes> {
    if hex == "" then Some([])
    else if |hex| < 2 || ToDigit(hex[0]) < 0 || ToDigit(hex[1]) < 0 then None
    else match HexDecode(hex[2..])
      case None => None
      case Some(rest) => Some([(16 * ToDigit(hex[0]) + ToDigit(hex[1])) as byte] + rest)
  }

  function HexDecode32(hex: string): (r: Option<Digest>) {
    if |hex| != 64 then None
    else match HexDecode(hex)
      case None => None
      case Some(bytes) => HexDecodeLength(hex); Some(bytes)
  }

  lemma HexDecodeLength(hex: string)
    requires HexDecode(hex).Some?
    ensures 2 * |HexDecode(hex).value| == |hex|
  {
  }

  lemma HexPair(n: int)
    requires 0 <= n < 16
    ensures ToDigit(CanonicalJson.HexDigit(n)) == n
  {
  }

  lemma {:induction false} HexRoundTrip(bytes: Bytes)
    ensures |HexEncode(bytes)| == 2 * |bytes|
    ensures HexDecode(HexEncode(bytes)) == Some(bytes)
  {
    if bytes != [] {
      hide CanonicalJson.HexDigit, ToDigit;
      HexRoundTrip(bytes[1..]);
      var hex := HexEncode(bytes);
      assert hex[2..] == HexEncode(bytes[1..]);
      HexPair(bytes[0] as int / 16);
      HexPair(bytes[0] as int % 16);
      assert [bytes[0]] + bytes[1..] == bytes;
    }
  }

  /** Two digits a byte, each a decimal digit or a lower-case letter up to f. */
  lemma {:induction false} HexIsLowerCase(bytes: Bytes, i: nat)
    requires i < |HexEncode(bytes)|
    ensures |HexEncode(bytes)| == 2 * |bytes|
    ensures var code := HexEncode(bytes)[i] as int; 48 <= code <= 57 || 97 <= code <= 102
  {
    hide CanonicalJson.HexDigit, ToDigit;
    HexRoundTrip(bytes);
    if i >= 2 {
      HexIsLowerCase(bytes[1..], i - 2);
      assert HexEncode(bytes)[2..] == HexEncode(bytes[1..]);
    } else {
      DigitIsLowerCase(bytes[0] as int / 16);
      DigitIsLowerCase(bytes[0] as int % 16);
    }
  }

  lemma DigitIsLowerCase(n: int)
    requires 0 <= n < 16
    ensures var code := CanonicalJson.HexDigit(n) as int; 48 <= code <= 57 || 97 <= code <= 102
  {
  }

  // ----- The rendered digest -------------------------------------------------

  function Render(d: Digest): string {
    "sha256:" + HexEncode(d)
  }

  function Sha256Digest(bytes: Bytes): string {
    Render(Sha256(bytes))
  }

  /** The hash before a run's first event: the digest of no bytes at all. */
  const GenesisHash: string := Sha256Digest([])

  function DigestBytes(rendered: string): Option<Digest> {
    if "sha256:" <= rendered then HexDecode32(rendered[7..]) else None
  }

  /** A rendered digest gives its 32 bytes back. */
  lemma DigestRoundTrip(d: Digest)
    ensures DigestBytes(Render(d)) == Some(d)
  {
    HexRoundTrip(d);
    assert Render(d)[7..] == HexEncode(d);
  }

  lemma RenderInjective(c: Digest, d: Digest)
    requires Render(c) == Render(d)
    ensures c == d
  {
    DigestRoundTrip(c);
    DigestRoundTrip(d);
  }
}

/** UTF-8 as the Rust standard library reads and writes it: `str::as_bytes` and the strict
    `String::from_utf8`. */
module Utf8 {
  import opened Wrappers

  type byte = b: int | 0 <= b < 256

  predicate IsScalar(u: int) { 0 <= u < 0xD800 || 0xE000 <= u < 0x11_0000 }

  function EncodeChar(c: char): (b: seq<byte>)
    ensures 1 <= |b| <= 4
    ensures (c as int) < 0x80 ==> b == [c as int]
    ensures (c as int) >= 0x80 ==> forall i :: 0 <= i < |b| ==> b[i] >= 0x80
  {
    var u := c as int;
    if u < 0x80 then [u]
    else if u < 0x800 then [0xC0 + u / 64, 0x80 + u % 64]
    else if u < 0x1_0000 then [0xE0 + u / 4096, 0x80 + u / 64 % 64, 0x80 + u % 64]
    else [0xF0 + u / 262144, 0x80 + u / 4096 % 64, 0x80 + u / 64 % 64, 0x80 + u % 64]
  }

  function ToUtf8(s: string): seq<byte>
  {
    if s == [] then [] else EncodeChar(s[0]) + ToUtf8(s[1..])
  }

  /** How many bytes the first one announces. */
  function Width(lead: byte): nat
  {
    if lead < 0x80 then 1 else if lead < 0xE0 then 2 else if lead < 0xF0 then 3 else 4
  }

  function CodePoint(b: seq<int>): int
    requires 1 <= |b| <= 4
  {
    match |b|
    case 1 => b[0]
    case 2 => (b[0] - 0xC0) * 64 + (b[1] - 0x80)
    case 3 => (b[0] - 0xE0) * 4096 + (b[1] - 0x80) * 64 + (b[2] - 0x80)
    case _ => (b[0] - 0xF0) * 262144 + (b[1] - 0x80) * 4096 + (b[2] - 0x80) * 64 + (b[3] - 0x80)
  }

  /** The first character; overlong, truncated, surrogate and out-of-range forms are refused
      because they are not the encoding of the code point they spell. */
  function DecodeHead(b: seq<byte>): (r: Option<char>)
    requires b != []
    ensures r.Some? ==> EncodeChar(r.value) <= b
  {
    var n := Width(b[0]);
    if |b| < n then None
    else
      var u := CodePoint(b[..n]);
      if IsScalar(u) && EncodeChar(u as char) == b[..n] then Some(u as char) else None
  }

  function FromUtf8(b: seq<byte>): Option<string>
  {
    if b == [] then Some("")
    else
      match DecodeHead(b)
      case None => None
      case Some(c) =>
        match FromUtf8(b[|EncodeChar(c)|..])
        case None => None
        case Some(rest) => Some([c] + rest)
  }

  lemma CodePointOfEncoding(c: char)
    ensures Width(EncodeChar(c)[0]) == |EncodeChar(c)| && CodePoint(EncodeChar(c)) == c as int
  {
    var u := c as int;
    assert u == u / 64 * 64 + u % 64;
    assert u / 64 == u / 4096 * 64 + u / 64 % 64;
    assert u / 4096 == u / 262144 * 64 + u / 4096 % 64;
  }

  lemma DecodeEncoded(c: char, rest: seq<byte>)
    ensures DecodeHead(EncodeChar(c) + rest) == Some(c)
  {
    CodePointOfEncoding(c);
    var b := EncodeChar(c) + rest;
    assert b[..|EncodeChar(c)|] == EncodeChar(c);
  }

  /** Strict decoding undoes encoding. */
  lemma {:induction false} Utf8RoundTrip(s: string)
    ensures FromUtf8(ToUtf8(s)) == Some(s)
  {
    if s != [] {
      DecodeEncoded(s[0], ToUtf8(s[1..]));
      assert ToUtf8(s)[|EncodeChar(s[0])|..] == ToUtf8(s[1..]);
      Utf8RoundTrip(s[1..]);
      assert [s[0]] + s[1..] == s;
    }
  }

  lemma DecodeUnfold(b: seq<byte>, s: string)
    requires b != [] && FromUtf8(b) == Some(s)
    ensures s != "" && EncodeChar(s[0]) <= b && FromUtf8(b[|EncodeChar(s[0])|..]) == Some(s[1..])
  {
    hide EncodeChar, DecodeHead;
    var c := DecodeHead(b).value;
    assert s[1..] == FromUtf8(b[|EncodeChar(c)|..]).value;
  }

  lemma {:induction false} DecodedOnly(b: seq<byte>, s: string)
    requires FromUtf8(b) == Some(s)
    ensures ToUtf8(s) == b
  {
    hide EncodeChar, DecodeHead;
    if b != [] {
      DecodeUnfold(b, s);
      hide FromUtf8;
      var head := EncodeChar(s[0]);
      DecodedOnly(b[|head|..], s[1..]);
      assert head + b[|head|..] == b;
    }
  }

  /** Bytes decode to `s` exactly when they are its own encoding. */
  lemma Utf8Strict(b: seq<byte>, s: string)
    ensures FromUtf8(b) == Some(s) <==> b == ToUtf8(s)
  {
    if FromUtf8(b) == Some(s) { DecodedOnly(b, s); }
    Utf8RoundTrip(s);
  }

  lemma {:induction false} ToUtf8Append(s: string, t: string)
    ensures ToUtf8(s + t) == ToUtf8(s) + ToUtf8(t)
  {
    if s == [] {
      assert s + t == t;
    } else {
      assert (s + t)[1..] == s[1..] + t;
      ToUtf8Append(s[1..], t);
      assert EncodeChar(s[0]) + (ToUtf8(s[1..]) + ToUtf8(t)) == (EncodeChar(s[0]) + ToUtf8(s[1..])) + ToUtf8(t);
    }
  }

  // ---- hexadecimal bytes ----

  const HEX_UPPER := "0123456789ABCDEF"
  const HEX_LOWER := "0123456789abcdef"

  function HexValue(b: int): (v: Option<nat>)
    ensures v.Some? ==> v.value < 16
  {
    if '0' as int <= b <= '9' as int then Some(b - '0' as int)
    else if 'A' as int <= b <= 'F' as int then Some(b - 'A' as int + 10)
    else if 'a' as int <= b <= 'f' as int then Some(b - 'a' as int + 10)
    else None
  }

  lemma HexUpperValue(d: nat)
    requires d < 16
    ensures HexValue(HEX_UPPER[d] as int) == Some(d)
  {}

  lemma HexLowerValue(d: nat)
    requires d < 16
    ensures HexValue(HEX_LOWER[d] as int) == Some(d)
  {}
}

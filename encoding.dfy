/** Byte encodings the core relies on: UTF-8 (`str.encode` / `bytes.decode`), Base64 as
    defined in section 4 of RFC 4648 (`base64.b64encode` / the lenient `b64decode`), and
    the percent-encoding of section 2.1 of RFC 3986 done by `urllib.parse.quote`. */
module Encoding {
  import opened Common

  type byte = x: int | 0 <= x < 256

  // ---------------------------------------------------------------- UTF-8

  /** The UTF-8 form of one Unicode scalar value (1 to 4 bytes). */
  function EncodeChar(c: char): (r: seq<byte>)
    ensures 1 <= |r| <= 4
  {
    var n := c as int;
    if n < 0x80 then [n]
    else if n < 0x800 then [0xC0 + n / 64, 0x80 + n % 64]
    else if n < 0x10000 then [0xE0 + n / 4096, 0x80 + (n / 64) % 64, 0x80 + n % 64]
    else [0xF0 + n / 262144, 0x80 + (n / 4096) % 64, 0x80 + (n / 64) % 64, 0x80 + n % 64]
  }

  /** `s.encode('utf-8')`; a Dafny `char` is never a surrogate, so this cannot fail. */
  function Utf8Encode(s: string): (r: seq<byte>)
    ensures |s| <= |r| <= 4 * |s|
  {
    if s == [] then [] else EncodeChar(s[0]) + Utf8Encode(s[1..])
  }

  predicate IsCont(b: byte)
  {
    0x80 <= b < 0xC0
  }

  /** The first scalar value of `b` and how many bytes it took, or `None` where a
      strict decoder rejects the sequence (bad lead byte, missing continuation byte,
      overlong form, surrogate, or a value above U+10FFFF). */
  function DecodeFirst(b: seq<byte>): (r: Option<(char, nat)>)
    requires |b| > 0
    ensures r.Some? ==> 1 <= r.value.1 <= |b|
  {
    var b0 := b[0] as int;
    if b0 < 0x80 then Some((b0 as char, 1))
    else if 0xC2 <= b0 < 0xE0 then
      if |b| >= 2 && IsCont(b[1]) then Some((((b0 - 0xC0) * 64 + (b[1] as int - 0x80)) as char, 2)) else None
    else if 0xE0 <= b0 < 0xF0 then
      if |b| >= 3 && IsCont(b[1]) && IsCont(b[2]) then
        var cp := (b0 - 0xE0) * 4096 + (b[1] as int - 0x80) * 64 + (b[2] as int - 0x80);
        if cp >= 0x800 && !(0xD800 <= cp < 0xE000) then Some((cp as char, 3)) else None
      else None
    else if 0xF0 <= b0 < 0xF5 then
      if |b| >= 4 && IsCont(b[1]) && IsCont(b[2]) && IsCont(b[3]) then
        var cp := (b0 - 0xF0) * 262144 + (b[1] as int - 0x80) * 4096 + (b[2] as int - 0x80) * 64 + (b[3] as int - 0x80);
        if 0x10000 <= cp < 0x110000 then Some((cp as char, 4)) else None
      else None
    else None
  }

  /** `b.decode('utf-8')` with strict errors: `None` where Python raises UnicodeDecodeError. */
  function Utf8Decode(b: seq<byte>): (r: Option<string>)
    ensures r.Some? ==> |r.value| <= |b|
    decreases |b|
  {
    if b == [] then Some([])
    else match DecodeFirst(b)
      case None => None
      case Some((c, n)) =>
        match Utf8Decode(b[n..])
        case None => None
        case Some(rest) => Some([c] + rest)
  }

  lemma DecodeFirstOfEncodeChar(c: char, rest: seq<byte>)
    ensures DecodeFirst(EncodeChar(c) + rest) == Some((c, |EncodeChar(c)|))
  {
    var n := c as int;
    if n < 0x80 {
    } else if n < 0x800 {
      DecodeFirstTwo(c, rest);
    } else if n < 0x10000 {
      DecodeFirstThree(c, rest);
    } else {
      DecodeFirstFour(c, rest);
    }
  }

  lemma DecodeFirstTwo(c: char, rest: seq<byte>)
    requires 0x80 <= c as int < 0x800
    ensures DecodeFirst(EncodeChar(c) + rest) == Some((c, |EncodeChar(c)|))
  {
    var n := c as int;
    var b := EncodeChar(c) + rest;
    assert b[0] == 0xC0 + n / 64 && b[1] == 0x80 + n % 64;
    assert (n / 64) * 64 + n % 64 == n;
  }

  lemma DecodeFirstThree(c: char, rest: seq<byte>)
    requires 0x800 <= c as int < 0x10000
    ensures DecodeFirst(EncodeChar(c) + rest) == Some((c, |EncodeChar(c)|))
  {
    var n := c as int;
    var b := EncodeChar(c) + rest;
    var q := n / 64;
    assert q == (n / 4096) * 64 + q % 64;
    assert n == q * 64 + n % 64;
    assert b[0] == 0xE0 + n / 4096 && b[1] == 0x80 + q % 64 && b[2] == 0x80 + n % 64;
    assert (n / 4096) * 4096 + (q % 64) * 64 + n % 64 == n;
  }

  lemma DecodeFirstFour(c: char, rest: seq<byte>)
    requires 0x10000 <= c as int
    ensures DecodeFirst(EncodeChar(c) + rest) == Some((c, |EncodeChar(c)|))
  {
    var n := c as int;
    var b := EncodeChar(c) + rest;
    Radix64Four(n);
    assert b[0] == 0xF0 + n / 262144 && b[1] == 0x80 + (n / 4096) % 64;
    assert b[2] == 0x80 + (n / 64) % 64 && b[3] == 0x80 + n % 64;
  }

  /** The four base-64 digits of a supplementary-plane scalar value. */
  lemma Radix64Four(n: int)
    requires 0x10000 <= n < 0x110000
    ensures (n / 262144) * 262144 + ((n / 4096) % 64) * 4096 + ((n / 64) % 64) * 64 + n % 64 == n
  {
    var q := n / 64;
    var p := n / 4096;
    assert p == (n / 262144) * 64 + p % 64;
    assert q == p * 64 + q % 64;
    assert n == q * 64 + n % 64;
  }

  /** Decoding what was encoded gives the string back. */
  lemma {:induction false} Utf8RoundTrip(s: string)
    ensures Utf8Decode(Utf8Encode(s)) == Some(s)
  {
    if s != [] {
      var e := EncodeChar(s[0]);
      var tail := Utf8Encode(s[1..]);
      DecodeFirstOfEncodeChar(s[0], tail);
      assert (e + tail)[|e|..] == tail;
      Utf8RoundTrip(s[1..]);
      assert [s[0]] + s[1..] == s;
    }
  }

  /** Characters below U+0080 are encoded as themselves. */
  lemma {:induction false} Utf8EncodeAscii(s: string)
    requires forall i :: 0 <= i < |s| ==> s[i] < 128 as char
    ensures |Utf8Encode(s)| == |s|
    ensures forall i :: 0 <= i < |s| ==> Utf8Encode(s)[i] == s[i] as int
  {
    if s != [] {
      Utf8EncodeAscii(s[1..]);
    }
  }

  // ---------------------------------------------------------------- Base64

  /** The symbol for a 6-bit value in the standard alphabet of RFC 4648, as a byte. */
  function B64Symbol(v: nat): (r: byte)
    requires v < 64
    ensures r != 61
  {
    if v < 26 then 65 + v         // 'A'..'Z'
    else if v < 52 then 71 + v    // 'a'..'z'
    else if v < 62 then v - 4     // '0'..'9'
    else if v == 62 then 43       // '+'
    else 47                       // '/'
  }

  /** The decoder's table: the value of an alphabet byte, or -1 for any other byte. */
  function B64Value(b: byte): (r: int)
    ensures -1 <= r < 64
    ensures r >= 0 ==> B64Symbol(r) == b
  {
    if 65 <= b <= 90 then b - 65
    else if 97 <= b <= 122 then b - 71
    else if 48 <= b <= 57 then b + 4
    else if b == 43 then 62
    else if b == 47 then 63
    else -1
  }

  lemma B64ValueOfSymbol(v: nat)
    requires v < 64
    ensures B64Value(B64Symbol(v)) == v
  {
  }

  const Pad: byte := 61   // '='

  function Enc3(a: byte, b: byte, c: byte): seq<byte>
  {
    [B64Symbol(a / 4), B64Symbol((a % 4) * 16 + b / 16), B64Symbol((b % 16) * 4 + c / 64), B64Symbol(c % 64)]
  }

  /** `base64.b64encode(b)`: each group of three bytes becomes four symbols, and a final
      group of one or two bytes is padded with '='. */
  function Base64Encode(b: seq<byte>): (r: seq<byte>)
    decreases |b|
  {
    if |b| >= 3 then Enc3(b[0], b[1], b[2]) + Base64Encode(b[3..])
    else if |b| == 2 then [B64Symbol(b[0] / 4), B64Symbol((b[0] % 4) * 16 + b[1] / 16), B64Symbol((b[1] % 16) * 4), Pad]
    else if |b| == 1 then [B64Symbol(b[0] / 4), B64Symbol((b[0] % 4) * 16), Pad, Pad]
    else []
  }

  /** The encoding has four symbols for every started group of three bytes. */
  lemma {:induction false} Base64EncodeLength(b: seq<byte>)
    ensures |Base64Encode(b)| == (|b| + 2) / 3 * 4
    decreases |b|
  {
    if |b| >= 3 {
      Base64EncodeLength(b[3..]);
      assert (|b| + 2) / 3 == (|b[3..]| + 2) / 3 + 1;
    }
  }

  /** The non-validating decoder of `base64.b64decode(s)` (CPython's `a2b_base64` with
      strict mode off), over the bytes still to read. `quad` is how many data symbols of
      the current group were read, `left` the bits not yet emitted, and `pads` the '='
      seen since the last data symbol. Bytes outside the alphabet are skipped; an '='
      that completes a group ends the input; a dangling partial group is an error. */
  function A2B(s: seq<byte>, quad: nat, left: nat, pads: nat, acc: seq<byte>): (r: Result<seq<byte>>)
    requires quad < 4
    requires quad == 0 ==> left == 0
    requires quad == 1 ==> left < 64
    requires quad == 2 ==> left < 16
    requires quad == 3 ==> left < 4
    decreases |s|
  {
    if s == [] then
      if quad == 0 then Ok(acc)
      else if quad == 1 then Err("binascii.Error: Invalid base64-encoded string: number of data characters cannot be 1 more than a multiple of 4")
      else Err("binascii.Error: Incorrect padding")
    else if s[0] == Pad then
      if quad >= 2 && quad + pads + 1 >= 4 then Ok(acc)
      else A2B(s[1..], quad, left, if quad >= 2 then pads + 1 else pads, acc)
    else
      var v := B64Value(s[0]);
      if v < 0 then A2B(s[1..], quad, left, pads, acc)
      else if quad == 0 then A2B(s[1..], 1, v, 0, acc)
      else if quad == 1 then A2B(s[1..], 2, v % 16, 0, acc + [left * 4 + v / 16])
      else if quad == 2 then A2B(s[1..], 3, v % 4, 0, acc + [left * 16 + v / 4])
      else A2B(s[1..], 0, 0, 0, acc + [left * 64 + v])
  }

  function Base64Decode(s: seq<byte>): Result<seq<byte>>
  {
    A2B(s, 0, 0, 0, [])
  }

  lemma Dec3(s: seq<byte>, a: byte, b: byte, c: byte, rest: seq<byte>, acc: seq<byte>)
    requires s == Enc3(a, b, c) + rest
    ensures A2B(s, 0, 0, 0, acc) == A2B(rest, 0, 0, 0, acc + [a, b, c])
  {
    var c0, c1, c2, c3 := a / 4, (a % 4) * 16 + b / 16, (b % 16) * 4 + c / 64, c % 64;
    Enc3Arith(a, b, c, c0, c1, c2, c3);
    assert s[0] == B64Symbol(c0) && s[1] == B64Symbol(c1) && s[2] == B64Symbol(c2) && s[3] == B64Symbol(c3);
    assert s[4..] == rest;
    B64ValueOfSymbol(c0);
    B64ValueOfSymbol(c1);
    B64ValueOfSymbol(c2);
    B64ValueOfSymbol(c3);
    Dec4Values(s, c0, c1, c2, c3, a, b, c, acc);
  }

  /** Four data symbols read from the start of a group. */
  lemma Dec4Values(s: seq<byte>, c0: nat, c1: nat, c2: nat, c3: nat, x: byte, y: byte, z: byte, acc: seq<byte>)
    requires |s| >= 4 && c0 < 64 && c1 < 64 && c2 < 64 && c3 < 64
    requires B64Value(s[0]) == c0 && B64Value(s[1]) == c1 && B64Value(s[2]) == c2 && B64Value(s[3]) == c3
    requires x == c0 * 4 + c1 / 16 && y == (c1 % 16) * 16 + c2 / 4 && z == (c2 % 4) * 64 + c3
    ensures A2B(s, 0, 0, 0, acc) == A2B(s[4..], 0, 0, 0, acc + [x, y, z])
  {
    var s1, s2, s3 := s[1..], s[2..], s[3..];
    assert |s1| >= 3 && |s2| >= 2 && |s3| >= 1;
    assert s1[0] == s[1] && s2[0] == s[2] && s3[0] == s[3];
    assert s1[1..] == s2 && s2[1..] == s3 && s3[1..] == s[4..];
    A2BData(s, 0, 0, acc, c0);
    A2BData(s1, 1, c0, acc, c1);
    A2BData(s2, 2, c1 % 16, acc + [x], c2);
    A2BData(s3, 3, c2 % 4, acc + [x] + [y], c3);
    assert acc + [x] + [y] + [z] == acc + [x, y, z];
  }

  /** One data symbol of value `v` read by the decoder. */
  lemma A2BData(s: seq<byte>, quad: nat, left: nat, acc: seq<byte>, v: nat)
    requires quad < 4 && (quad == 0 ==> left == 0) && (quad == 1 ==> left < 64)
    requires (quad == 2 ==> left < 16) && (quad == 3 ==> left < 4)
    requires s != [] && B64Value(s[0]) == v
    ensures quad == 0 ==> A2B(s, quad, left, 0, acc) == A2B(s[1..], 1, v, 0, acc)
    ensures quad == 1 ==> A2B(s, quad, left, 0, acc) == A2B(s[1..], 2, v % 16, 0, acc + [left * 4 + v / 16])
    ensures quad == 2 ==> A2B(s, quad, left, 0, acc) == A2B(s[1..], 3, v % 4, 0, acc + [left * 16 + v / 4])
    ensures quad == 3 ==> A2B(s, quad, left, 0, acc) == A2B(s[1..], 0, 0, 0, acc + [left * 64 + v])
  {
    assert s[0] != Pad by {
      assert B64Value(Pad) == -1;
    }
  }

  /** The four 6-bit values of a group rebuild its three bytes. */
  lemma Enc3Arith(a: byte, b: byte, c: byte, c0: int, c1: int, c2: int, c3: int)
    requires c0 == a / 4 && c1 == (a % 4) * 16 + b / 16 && c2 == (b % 16) * 4 + c / 64 && c3 == c % 64
    ensures 0 <= c0 < 64 && 0 <= c1 < 64 && 0 <= c2 < 64 && 0 <= c3 < 64
    ensures c0 * 4 + c1 / 16 == a && (c1 % 16) * 16 + c2 / 4 == b && (c2 % 4) * 64 + c3 == c
  {
  }

  lemma Base64RoundTripTwo(b: seq<byte>, acc: seq<byte>)
    requires |b| == 2
    ensures A2B(Base64Encode(b), 0, 0, 0, acc) == Ok(acc + b)
  {
    var e := Base64Encode(b);
    var c0, c1, c2 := b[0] / 4, (b[0] % 4) * 16 + b[1] / 16, (b[1] % 16) * 4;
    B64ValueOfSymbol(c0);
    B64ValueOfSymbol(c1);
    B64ValueOfSymbol(c2);
    assert c0 * 4 + c1 / 16 == b[0];
    assert (c1 % 16) * 16 + c2 / 4 == b[1];
    calc {
      A2B(e, 0, 0, 0, acc);
      A2B(e[1..], 1, c0, 0, acc);
      { assert e[1..][0] == B64Symbol(c1); }
      A2B(e[2..], 2, c1 % 16, 0, acc + [b[0]]);
      { assert e[2..][0] == B64Symbol(c2); assert e[2..][1..] == e[3..]; }
      A2B(e[3..], 3, c2 % 4, 0, acc + [b[0]] + [b[1]]);
      { assert e[3..][0] == Pad; }
      Ok(acc + [b[0]] + [b[1]]);
      { assert acc + [b[0]] + [b[1]] == acc + b; }
      Ok(acc + b);
    }
  }

  lemma Base64RoundTripOne(b: seq<byte>, acc: seq<byte>)
    requires |b| == 1
    ensures A2B(Base64Encode(b), 0, 0, 0, acc) == Ok(acc + b)
  {
    var e := Base64Encode(b);
    var c0, c1 := b[0] / 4, (b[0] % 4) * 16;
    B64ValueOfSymbol(c0);
    B64ValueOfSymbol(c1);
    assert c0 * 4 + c1 / 16 == b[0];
    calc {
      A2B(e, 0, 0, 0, acc);
      A2B(e[1..], 1, c0, 0, acc);
      { assert e[1..][0] == B64Symbol(c1); }
      A2B(e[2..], 2, c1 % 16, 0, acc + [b[0]]);
      { assert e[2..][0] == Pad; assert e[2..][1..] == e[3..]; }
      A2B(e[3..], 2, c1 % 16, 1, acc + [b[0]]);
      { assert e[3..][0] == Pad; }
      Ok(acc + [b[0]]);
      { assert acc + [b[0]] == acc + b; }
      Ok(acc + b);
    }
  }

  /** Base64 round trip: decoding an encoding gives back the original bytes. */
  lemma {:induction false} Base64RoundTripFrom(b: seq<byte>, acc: seq<byte>)
    ensures A2B(Base64Encode(b), 0, 0, 0, acc) == Ok(acc + b)
    decreases |b|, 1
  {
    if |b| >= 3 {
      Base64RoundTripThree(b, acc);
    } else if |b| == 2 {
      Base64RoundTripTwo(b, acc);
    } else if |b| == 1 {
      Base64RoundTripOne(b, acc);
    } else {
      assert acc + b == acc;
    }
  }

  lemma {:induction false} Base64RoundTripThree(b: seq<byte>, acc: seq<byte>)
    requires |b| >= 3
    ensures A2B(Base64Encode(b), 0, 0, 0, acc) == Ok(acc + b)
    decreases |b|, 0
  {
    DecodeGroup(b, acc);
    Base64RoundTripFrom(b[3..], acc + b[..3]);
    assert b[..3] + b[3..] == b;
    AppendAssoc(acc, b[..3], b[3..]);
  }

  /** Decoding the first group of an encoding yields its three bytes. */
  lemma DecodeGroup(b: seq<byte>, acc: seq<byte>)
    requires |b| >= 3
    ensures A2B(Base64Encode(b), 0, 0, 0, acc) == A2B(Base64Encode(b[3..]), 0, 0, 0, acc + b[..3])
  {
    assert b[..3] == [b[0], b[1], b[2]];
    EncodeStep(b);
    Dec3(Base64Encode(b), b[0], b[1], b[2], Base64Encode(b[3..]), acc);
  }

  lemma AppendAssoc(x: seq<byte>, y: seq<byte>, z: seq<byte>)
    ensures x + y + z == x + (y + z)
  {
  }

  lemma EncodeStep(b: seq<byte>)
    requires |b| >= 3
    ensures Base64Encode(b) == Enc3(b[0], b[1], b[2]) + Base64Encode(b[3..])
  {
  }

  lemma Base64RoundTrip(b: seq<byte>)
    ensures Base64Decode(Base64Encode(b)) == Ok(b)
  {
    Base64RoundTripFrom(b, []);
    assert [] + b == b;
  }

  // ---------------------------------------------------------------- percent-encoding

  /** Bytes `quote` leaves alone: the unreserved set of section 2.3 of RFC 3986
      (ALPHA, DIGIT, '-', '.', '_', '~') and the default safe character '/'. */
  predicate QuoteSafe(b: byte)
  {
    (65 <= b <= 90) || (97 <= b <= 122) || (48 <= b <= 57) || b == 45 || b == 46 || b == 95 || b == 126 || b == 47
  }

  function HexDigit(d: nat): (c: char)
    requires d < 16
  {
    if d < 10 then ('0' as int + d) as char else ('A' as int + d - 10) as char
  }

  predicate IsUpperHex(c: char)
  {
    ('0' <= c <= '9') || ('A' <= c <= 'F')
  }

  function HexValue(c: char): (v: nat)
    requires IsUpperHex(c)
    ensures v < 16 && HexDigit(v) == c
  {
    if c <= '9' then c as int - '0' as int else c as int - 'A' as int + 10
  }

  /** One byte as `quote` writes it: itself if safe, else '%' and two uppercase hex digits. */
  function QuoteByte(b: byte): (r: string)
    ensures QuoteSafe(b) ==> r == [b as char]
    ensures !QuoteSafe(b) ==> |r| == 3 && r[0] == '%' && IsUpperHex(r[1]) && IsUpperHex(r[2])
  {
    if QuoteSafe(b) then [b as char] else ['%', HexDigit(b / 16), HexDigit(b % 16)]
  }

  /** `urllib.parse.quote_from_bytes(b, safe='/')`. */
  function QuoteBytes(b: seq<byte>): (r: string)
    ensures |b| <= |r| <= 3 * |b|
  {
    if b == [] then "" else QuoteByte(b[0]) + QuoteBytes(b[1..])
  }

  /** `urllib.parse.quote(s)`: percent-encoding of the UTF-8 bytes of `s`. */
  function Quote(s: string): string
  {
    QuoteBytes(Utf8Encode(s))
  }

  /** The characters a quoted string may contain. */
  predicate QuotedChar(c: char)
  {
    (c < 128 as char && QuoteSafe(c as int)) || c == '%' || IsUpperHex(c)
  }

  lemma {:induction false} QuoteBytesAlphabet(b: seq<byte>)
    ensures forall i :: 0 <= i < |QuoteBytes(b)| ==> QuotedChar(QuoteBytes(b)[i])
  {
    if b != [] {
      QuoteBytesAlphabet(b[1..]);
      var h := QuoteByte(b[0]);
      var r := QuoteBytes(b);
      forall i | 0 <= i < |r| ensures QuotedChar(r[i]) {
        if i >= |h| {
          assert r[i] == QuoteBytes(b[1..])[i - |h|];
        } else {
          assert r[i] == h[i];
        }
      }
    }
  }

  /** The reference decoder that undoes percent-encoding: "%XX" is the byte XX and any
      other character below U+0100 is its own code; anything else is rejected. */
  function PercentDecode(s: string): (r: Option<seq<byte>>)
    decreases |s|
  {
    if s == [] then Some([])
    else if s[0] == '%' && |s| >= 3 && IsUpperHex(s[1]) && IsUpperHex(s[2]) then
      match PercentDecode(s[3..])
      case None => None
      case Some(t) => Some([HexValue(s[1]) * 16 + HexValue(s[2])] + t)
    else if s[0] as int < 256 && s[0] != '%' then
      match PercentDecode(s[1..])
      case None => None
      case Some(t) => Some([s[0] as int] + t)
    else None
  }

  lemma {:induction false} PercentDecodeOfQuoteBytes(b: seq<byte>)
    ensures PercentDecode(QuoteBytes(b)) == Some(b)
  {
    if b != [] {
      var h := QuoteByte(b[0]);
      var s := h + QuoteBytes(b[1..]);
      PercentDecodeOfQuoteBytes(b[1..]);
      assert s[|h|..] == QuoteBytes(b[1..]);
      if QuoteSafe(b[0]) {
        assert s[0] == b[0] as char;
      } else {
        assert s[1] == HexDigit(b[0] / 16) && s[2] == HexDigit(b[0] % 16);
        assert HexValue(s[1]) == b[0] / 16 by {
          assert HexDigit(HexValue(s[1])) == HexDigit(b[0] / 16);
        }
        assert HexValue(s[2]) == b[0] % 16 by {
          assert HexDigit(HexValue(s[2])) == HexDigit(b[0] % 16);
        }
      }
      assert [b[0]] + b[1..] == b;
    }
  }

  /** `quote` is injective: percent-decoding and then UTF-8-decoding gives the string back. */
  lemma QuoteRoundTrip(s: string)
    ensures PercentDecode(Quote(s)) == Some(Utf8Encode(s))
    ensures Utf8Decode(PercentDecode(Quote(s)).value) == Some(s)
  {
    PercentDecodeOfQuoteBytes(Utf8Encode(s));
    Utf8RoundTrip(s);
  }

  /** Text made only of safe ASCII characters is not changed by `quote`. */
  lemma {:induction false} QuoteSafeText(s: string)
    requires forall i :: 0 <= i < |s| ==> s[i] < 128 as char && QuoteSafe(s[i] as int)
    ensures Quote(s) == s
  {
    if s != [] {
      QuoteSafeText(s[1..]);
      assert Utf8Encode(s) == EncodeChar(s[0]) + Utf8Encode(s[1..]);
      assert EncodeChar(s[0]) == [s[0] as int];
      assert [s[0]] + s[1..] == s;
    }
  }
}

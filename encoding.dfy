/** Byte encodings used by the DocumentReference attachment and by the
    analytics reader: UTF-8 (RFC 3629, strict like Python's codec), base64
    encoding with the standard alphabet and padding (section 4 of RFC 4648),
    and the lenient base64 decoding Python's `b64decode` does by default. */
module Encoding {
  import opened Wrappers

  type byte = b: int | 0 <= b < 256

  // ---------------------------------------------------------------------
  // UTF-8
  // ---------------------------------------------------------------------

  /** The UTF-8 bytes of one Unicode scalar value. */
  function EncodeScalar(c: char): (bs: seq<byte>)
    ensures 1 <= |bs| <= 4
  {
    var cp := c as int;
    var q := cp / 64;
    var q2 := q / 64;
    if cp < 0x80 then [cp]
    else if cp < 0x800 then [0xC0 + q, 0x80 + cp % 64]
    else if cp < 0x10000 then [0xE0 + q2, 0x80 + q % 64, 0x80 + cp % 64]
    else [0xF0 + q2 / 64, 0x80 + q2 % 64, 0x80 + q % 64, 0x80 + cp % 64]
  }

  /** `s.encode('utf-8')` */
  function Utf8Encode(s: string): (bs: seq<byte>)
    ensures |s| <= |bs| <= 4 * |s|
  {
    if s == [] then [] else EncodeScalar(s[0]) + Utf8Encode(s[1..])
  }

  predicate IsContinuation(b: byte) {
    0x80 <= b < 0xC0
  }

  predicate IsScalarValue(cp: int) {
    0 <= cp < 0xD800 || 0xE000 <= cp < 0x110000
  }

  /** Decodes the sequence that starts `bs`: the character and the number of
      bytes it used. Overlong forms, surrogates and values past U+10FFFF are
      rejected, as Python's strict codec does. */
  function DecodeScalar(bs: seq<byte>): (r: Option<(char, nat)>)
    ensures r.Some? ==> 1 <= r.value.1 <= |bs|
  {
    if |bs| == 0 then None
    else
      var b0 := bs[0] as int;
      if b0 < 0x80 then Some((b0 as char, 1))
      else if b0 < 0xC0 then None
      else if b0 < 0xE0 then
        if |bs| < 2 || !IsContinuation(bs[1]) then None
        else
          var cp := (b0 - 0xC0) * 64 + (bs[1] as int - 0x80);
          if cp < 0x80 then None else Some((cp as char, 2))
      else if b0 < 0xF0 then
        if |bs| < 3 || !IsContinuation(bs[1]) || !IsContinuation(bs[2]) then None
        else
          var cp := ((b0 - 0xE0) * 64 + (bs[1] as int - 0x80)) * 64 + (bs[2] as int - 0x80);
          if cp < 0x800 || !IsScalarValue(cp) then None else Some((cp as char, 3))
      else if b0 < 0xF8 then
        if |bs| < 4 || !IsContinuation(bs[1]) || !IsContinuation(bs[2]) || !IsContinuation(bs[3]) then None
        else
          var cp := (((b0 - 0xF0) * 64 + (bs[1] as int - 0x80)) * 64 + (bs[2] as int - 0x80)) * 64 + (bs[3] as int - 0x80);
          if cp < 0x10000 || !IsScalarValue(cp) then None else Some((cp as char, 4))
      else None
  }

  /** `bs.decode('utf-8')`: `None` where Python raises UnicodeDecodeError. */
  function Utf8Decode(bs: seq<byte>): Option<string>
    decreases |bs|
  {
    if bs == [] then Some([])
    else
      match DecodeScalar(bs)
      case None => None
      case Some((c, n)) =>
        match Utf8Decode(bs[n..])
        case None => None
        case Some(rest) => Some([c] + rest)
  }

  /** One encoded character decodes back to itself, whatever follows it. */
  lemma DecodeEncodeScalar(c: char, rest: seq<byte>)
    ensures DecodeScalar(EncodeScalar(c) + rest) == Some((c, |EncodeScalar(c)|))
  {
    var cp := c as int;
    var q := cp / 64;
    var q2 := q / 64;
    assert cp == q * 64 + cp % 64;
    assert q == q2 * 64 + q % 64;
    assert q2 == (q2 / 64) * 64 + q2 % 64;
    var bs := EncodeScalar(c) + rest;
    if cp < 0x80 {
    } else if cp < 0x800 {
      assert bs[0] == 0xC0 + q && bs[1] == 0x80 + cp % 64;
    } else if cp < 0x10000 {
      assert bs[0] == 0xE0 + q2 && bs[1] == 0x80 + q % 64 && bs[2] == 0x80 + cp % 64;
    } else {
      assert bs[0] == 0xF0 + q2 / 64 && bs[1] == 0x80 + q2 % 64;
      assert bs[2] == 0x80 + q % 64 && bs[3] == 0x80 + cp % 64;
    }
  }

  /** Decoding the UTF-8 encoding of a text gives the text back. */
  lemma {:induction false} Utf8RoundTrip(s: string)
    ensures Utf8Decode(Utf8Encode(s)) == Some(s)
  {
    if s != [] {
      var head := EncodeScalar(s[0]);
      var tail := Utf8Encode(s[1..]);
      DecodeEncodeScalar(s[0], tail);
      assert (head + tail)[|head|..] == tail;
      Utf8RoundTrip(s[1..]);
      assert s == [s[0]] + s[1..];
    }
  }

  // ---------------------------------------------------------------------
  // Base64 (section 4 of RFC 4648)
  // ---------------------------------------------------------------------

  /** The character for a 6-bit value. */
  function B64Char(i: nat): (c: char)
    requires i < 64
    ensures c != '=' && c as int < 128
  {
    if i < 26 then ('A' as int + i) as char
    else if i < 52 then ('a' as int + i - 26) as char
    else if i < 62 then ('0' as int + i - 52) as char
    else if i == 62 then '+'
    else '/'
  }

  /** The 6-bit value of an alphabet character. */
  function B64Index(c: char): (r: Option<nat>)
    ensures r.Some? ==> r.value < 64
  {
    if 'A' <= c <= 'Z' then Some(c as int - 'A' as int)
    else if 'a' <= c <= 'z' then Some(c as int - 'a' as int + 26)
    else if '0' <= c <= '9' then Some(c as int - '0' as int + 52)
    else if c == '+' then Some(62)
    else if c == '/' then Some(63)
    else None
  }

  lemma B64IndexOfChar(i: nat)
    requires i < 64
    ensures B64Index(B64Char(i)) == Some(i)
  {
  }

  /** Three bytes as four characters. */
  function EncodeGroup(b0: byte, b1: byte, b2: byte): (s: string)
    ensures |s| == 4
  {
    [B64Char(b0 / 4), B64Char((b0 % 4) * 16 + b1 / 16), B64Char((b1 % 16) * 4 + b2 / 64), B64Char(b2 % 64)]
  }

  /** `base64.b64encode(bs)` */
  function Base64Encode(bs: seq<byte>): (s: string)
    ensures |s| == 4 * ((|bs| + 2) / 3) && IsAscii(s)
    decreases |bs|
  {
    if |bs| == 0 then ""
    else if |bs| == 1 then [B64Char(bs[0] / 4), B64Char((bs[0] % 4) * 16), '=', '=']
    else if |bs| == 2 then
      [B64Char(bs[0] / 4), B64Char((bs[0] % 4) * 16 + bs[1] / 16), B64Char((bs[1] % 16) * 4), '=']
    else EncodeGroup(bs[0], bs[1], bs[2]) + Base64Encode(bs[3..])
  }

  /** The decoder's state between two characters: `quad` characters of the
      current group seen, `left` their bits not yet emitted, `pads` the '='
      seen since the last alphabet character, `out` the bytes emitted. */
  datatype Decoder = Decoder(quad: nat, left: nat, pads: nat, out: seq<byte>)
  {
    predicate Valid() {
      quad < 4 && left < (if quad <= 1 then 64 else if quad == 2 then 16 else 4)
    }
  }

  const Start := Decoder(0, 0, 0, [])

  /** One character of binascii's non-strict scan. A character outside the
      alphabet is skipped, and so is a '=' before the third character of a
      group; `None` when a '=' completes the group, which ends the input. */
  function Step(d: Decoder, c: char): (r: Option<Decoder>)
    requires d.Valid()
    ensures r.Some? ==> r.value.Valid() && |d.out| <= |r.value.out|
    ensures r.None? ==> c == '=' && d.quad >= 2
  {
    if c == '=' then
      if d.quad >= 2 && d.quad + d.pads + 1 >= 4 then None
      else Some(d.(pads := if d.quad >= 2 then d.pads + 1 else d.pads))
    else match B64Index(c)
      case None => Some(d)
      case Some(v) =>
        if d.quad == 0 then Some(Decoder(1, v, 0, d.out))
        else if d.quad == 1 then Some(Decoder(2, v % 16, 0, d.out + [d.left * 4 + v / 16]))
        else if d.quad == 2 then Some(Decoder(3, v % 4, 0, d.out + [d.left * 16 + v / 4]))
        else Some(Decoder(0, 0, 0, d.out + [d.left * 64 + v]))
  }

  /** The bytes of the rest of the input from a state; `None` where an
      unfinished group is left at the end ("Incorrect padding"). */
  function Scan(d: Decoder, s: string): (r: Option<seq<byte>>)
    requires d.Valid()
    ensures r.Some? ==> d.out <= r.value
    decreases |s|
  {
    if s == [] then (if d.quad == 0 then Some(d.out) else None)
    else match Step(d, s[0])
      case None => Some(d.out)
      case Some(next) => Scan(next, s[1..])
  }

  predicate IsAscii(s: string) {
    forall i :: 0 <= i < |s| ==> s[i] as int < 128
  }

  lemma {:induction false} AsciiAppend(a: string, b: string)
    ensures IsAscii(a + b) <==> IsAscii(a) && IsAscii(b)
  {
    assert forall i :: 0 <= i < |a| ==> a[i] == (a + b)[i];
    assert forall i :: 0 <= i < |b| ==> b[i] == (a + b)[|a| + i];
  }

  /** `base64.b64decode(s)` with its default `validate=False`: `None` where
      Python raises (a non-ASCII character, an unfinished last group). */
  function Base64Decode(s: string): (r: Option<seq<byte>>)
    ensures r.Some? ==> IsAscii(s)
    ensures !IsAscii(s) ==> r.None?
  {
    if IsAscii(s) then Scan(Start, s) else None
  }

  lemma SplitByte(x: byte, d: nat)
    requires d == 4 || d == 16 || d == 64
    ensures x == (x / d) * d + x % d && 0 <= x % d < d
  {
  }

  /** The scan of a text that starts with the character `c`. */
  lemma {:induction false} ScanChar(d: Decoder, c: char, t: string)
    requires d.Valid()
    ensures Scan(d, [c] + t) == match Step(d, c)
      case None => Some(d.out)
      case Some(next) => Scan(next, t)
  {
    assert ([c] + t)[0] == c && ([c] + t)[1..] == t;
  }

  /** The first two characters of a group give its first byte. */
  lemma {:induction false} ScanFirstByte(b0: byte, c1: nat, t: string, out: seq<byte>)
    requires c1 < 64 && c1 / 16 == b0 % 4
    ensures Scan(Decoder(0, 0, 0, out), [B64Char(b0 / 4), B64Char(c1)] + t)
         == Scan(Decoder(2, c1 % 16, 0, out + [b0]), t)
  {
    B64IndexOfChar(b0 / 4);
    B64IndexOfChar(c1);
    SplitByte(b0, 4);
    var r1 := [B64Char(c1)] + t;
    assert [B64Char(b0 / 4), B64Char(c1)] + t == [B64Char(b0 / 4)] + r1;
    ScanChar(Decoder(0, 0, 0, out), B64Char(b0 / 4), r1);
    ScanChar(Decoder(1, b0 / 4, 0, out), B64Char(c1), t);
  }

  /** The third character of a group gives its second byte. */
  lemma {:induction false} ScanSecondByte(b0: byte, b1: byte, c2: nat, t: string, out: seq<byte>)
    requires c2 < 64 && c2 / 4 == b1 % 16
    ensures Scan(Decoder(2, b1 / 16, 0, out + [b0]), [B64Char(c2)] + t)
         == Scan(Decoder(3, c2 % 4, 0, out + [b0, b1]), t)
  {
    B64IndexOfChar(c2);
    SplitByte(b1, 16);
    ScanChar(Decoder(2, b1 / 16, 0, out + [b0]), B64Char(c2), t);
    assert out + [b0] + [b1] == out + [b0, b1];
  }

  /** A full group of four characters gives its three bytes. */
  lemma {:induction false} ScanGroup(b0: byte, b1: byte, b2: byte, t: string, out: seq<byte>)
    ensures Scan(Decoder(0, 0, 0, out), EncodeGroup(b0, b1, b2) + t)
         == Scan(Decoder(0, 0, 0, out + [b0, b1, b2]), t)
  {
    var c1, c2, c3 := (b0 % 4) * 16 + b1 / 16, (b1 % 16) * 4 + b2 / 64, b2 % 64;
    SplitByte(b1, 16);
    SplitByte(b2, 64);
    B64IndexOfChar(c3);
    var r3 := [B64Char(c3)] + t;
    var r2 := [B64Char(c2)] + r3;
    assert EncodeGroup(b0, b1, b2) + t == [B64Char(b0 / 4), B64Char(c1)] + r2;
    ScanFirstByte(b0, c1, r2, out);
    assert c1 % 16 == b1 / 16;
    ScanSecondByte(b0, b1, c2, r3, out);
    ScanChar(Decoder(3, b2 / 64, 0, out + [b0, b1]), B64Char(c3), t);
    assert out + [b0, b1] + [b2] == out + [b0, b1, b2];
  }

  /** A one-byte last group ends the scan at its second '='. */
  lemma {:induction false} ScanOneByteGroup(b0: byte, t: string, out: seq<byte>)
    ensures Scan(Decoder(0, 0, 0, out), [B64Char(b0 / 4), B64Char((b0 % 4) * 16), '=', '='] + t) == Some(out + [b0])
  {
    var r2 := ['='] + (['='] + t);
    assert [B64Char(b0 / 4), B64Char((b0 % 4) * 16), '=', '='] + t == [B64Char(b0 / 4), B64Char((b0 % 4) * 16)] + r2;
    ScanFirstByte(b0, (b0 % 4) * 16, r2, out);
    var d := Decoder(2, 0, 0, out + [b0]);
    ScanChar(d, '=', ['='] + t);
    ScanChar(d.(pads := 1), '=', t);
  }

  /** A two-byte last group ends the scan at its '='. */
  lemma {:induction false} ScanTwoByteGroup(b0: byte, b1: byte, t: string, out: seq<byte>)
    ensures Scan(Decoder(0, 0, 0, out), [B64Char(b0 / 4), B64Char((b0 % 4) * 16 + b1 / 16), B64Char((b1 % 16) * 4), '='] + t)
         == Some(out + [b0, b1])
  {
    var c1, c2 := (b0 % 4) * 16 + b1 / 16, (b1 % 16) * 4;
    SplitByte(b1, 16);
    var r2 := [B64Char(c2)] + (['='] + t);
    assert [B64Char(b0 / 4), B64Char(c1), B64Char(c2), '='] + t == [B64Char(b0 / 4), B64Char(c1)] + r2;
    ScanFirstByte(b0, c1, r2, out);
    assert c1 % 16 == b1 / 16;
    ScanSecondByte(b0, b1, c2, ['='] + t, out);
    ScanChar(Decoder(3, 0, 0, out + [b0, b1]), '=', t);
  }

  lemma EncodeGroupThen(bs: seq<byte>)
    requires |bs| >= 3
    ensures Base64Encode(bs) == EncodeGroup(bs[0], bs[1], bs[2]) + Base64Encode(bs[3..])
  {
  }

  /** Scanning an encoding and whatever follows it: after full groups the
      scan goes on into the rest; after a padded group it stops there. */
  lemma {:induction false} ScanEncoded(bs: seq<byte>, t: string, out: seq<byte>)
    ensures Scan(Decoder(0, 0, 0, out), Base64Encode(bs) + t)
         == if |bs| % 3 == 0 then Scan(Decoder(0, 0, 0, out + bs), t) else Some(out + bs)
    decreases |bs|
  {
    if |bs| == 0 {
      assert Base64Encode(bs) + t == t && out + bs == out;
    } else if |bs| == 1 {
      ScanOneByteGroup(bs[0], t, out);
      assert [bs[0]] == bs;
    } else if |bs| == 2 {
      ScanTwoByteGroup(bs[0], bs[1], t, out);
      assert [bs[0], bs[1]] == bs;
    } else {
      ScanEncodedGroup(bs, t, out);
      ScanEncoded(bs[3..], t, out + bs[..3]);
      LessThree(|bs|);
      FirstThree(bs, out);
    }
  }

  /** The first group of a longer encoding. */
  lemma {:induction false} ScanEncodedGroup(bs: seq<byte>, t: string, out: seq<byte>)
    requires |bs| >= 3
    ensures Scan(Decoder(0, 0, 0, out), Base64Encode(bs) + t)
         == Scan(Decoder(0, 0, 0, out + bs[..3]), Base64Encode(bs[3..]) + t)
  {
    var rest := Base64Encode(bs[3..]);
    var g := EncodeGroup(bs[0], bs[1], bs[2]);
    EncodeGroupThen(bs);
    Associate(g, rest, t);
    ScanGroup(bs[0], bs[1], bs[2], rest + t, out);
    assert [bs[0], bs[1], bs[2]] == bs[..3];
  }

  lemma LessThree(n: nat)
    requires n >= 3
    ensures (n - 3) % 3 == n % 3
  {
    var q, r := (n - 3) / 3, (n - 3) % 3;
    assert n == (q + 1) * 3 + r;
  }

  lemma Associate(a: string, b: string, c: string)
    ensures (a + b) + c == a + (b + c)
  {
  }

  lemma FirstThree(bs: seq<byte>, out: seq<byte>)
    requires |bs| >= 3
    ensures out + bs[..3] + bs[3..] == out + bs
  {
    assert bs[..3] + bs[3..] == bs;
  }

  /** Decoding the base64 encoding of bytes gives the bytes back. */
  lemma {:induction false} Base64RoundTrip(bs: seq<byte>)
    ensures Base64Decode(Base64Encode(bs)) == Some(bs)
  {
    ScanEncoded(bs, [], []);
    assert Base64Encode(bs) + [] == Base64Encode(bs) && [] + bs == bs;
  }

  /** A '=' that completes the last group ends the input: whatever ASCII
      text follows is ignored. */
  lemma {:induction false} Base64StopsAtPadding(bs: seq<byte>, t: string)
    requires |bs| % 3 != 0 && IsAscii(t)
    ensures Base64Decode(Base64Encode(bs) + t) == Some(bs)
  {
    ScanEncoded(bs, t, []);
    AsciiAppend(Base64Encode(bs), t);
    assert [] + bs == bs;
  }

  /** A character outside the alphabet, other than '=', changes nothing. */
  lemma {:induction false} ScanSkips(d: Decoder, x: string, c: char, y: string)
    requires d.Valid() && c != '=' && B64Index(c).None?
    ensures Scan(d, x + [c] + y) == Scan(d, x + y)
    decreases |x|
  {
    if x == [] {
      assert x + [c] + y == [c] + y && x + y == y;
    } else {
      assert (x + [c] + y)[0] == x[0] == (x + y)[0];
      assert (x + [c] + y)[1..] == x[1..] + [c] + y;
      assert (x + y)[1..] == x[1..] + y;
      match Step(d, x[0])
      case None =>
      case Some(next) => ScanSkips(next, x[1..], c, y);
    }
  }

  /** Line breaks, spaces and other ASCII characters outside the alphabet
      are dropped before decoding, wherever they stand. */
  lemma {:induction false} Base64SkipsForeign(x: string, c: char, y: string)
    requires c as int < 128 && c != '=' && B64Index(c).None?
    ensures Base64Decode(x + [c] + y) == Base64Decode(x + y)
  {
    ScanSkips(Start, x, c, y);
    AsciiAppend(x, [c] + y);
    AsciiAppend(x, y);
    AsciiAppend([c], y);
    assert x + [c] + y == x + ([c] + y);
  }

  /** Line-wrapped base64 of "hello" decodes to its bytes. */
  lemma WrappedExample()
    ensures Base64Decode("aGVs\nbG8=") == Some([104, 101, 108, 108, 111])
  {
    var bs: seq<byte> := [104, 101, 108, 108, 111];
    HelloEncoded();
    Base64RoundTrip(bs);
    Base64SkipsForeign("aGVs", '\n', "bG8=");
    WrappedPieces();
  }

  lemma HelloEncoded()
    ensures Base64Encode([104, 101, 108, 108, 111]) == "aGVs" + "bG8="
  {
    var bs: seq<byte> := [104, 101, 108, 108, 111];
    assert bs[3..] == [108, 111];
    assert EncodeGroup(104, 101, 108) == "aGVs";
    assert Base64Encode([108, 111]) == "bG8=";
  }

  lemma WrappedPieces()
    ensures "aGVs" + ['\n'] + "bG8=" == "aGVs\nbG8="
  {
  }

  /** Text after a padded group is not read: "QQ==QUJD" decodes to "A". */
  lemma PaddedThenMoreExample()
    ensures Base64Decode("QQ==QUJD") == Some([65])
  {
    assert Base64Encode([65]) == "QQ==";
    Base64StopsAtPadding([65], "QUJD");
    assert "QQ==" + "QUJD" == "QQ==QUJD";
  }
}

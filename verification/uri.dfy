/** Percent-encoding of query-string components: `encodeURIComponent` (the token value) and the
    `application/x-www-form-urlencoded` serializer behind `URLSearchParams#toString` (caller
    params), both over UTF-8, with a decoder that inverts `encodeURIComponent`. */
module Uri {
  import opened Wrappers
  import opened Text

  type Byte = b: int | 0 <= b < 256

  predicate IsAsciiAlnum(c: char) {
    ('A' <= c <= 'Z') || ('a' <= c <= 'z') || ('0' <= c <= '9')
  }

  /** Characters `encodeURIComponent` leaves as they are. */
  predicate UriUnreserved(c: char) {
    IsAsciiAlnum(c) || c == '-' || c == '_' || c == '.' || c == '!' || c == '~'
    || c == '*' || c == '\'' || c == '(' || c == ')'
  }

  /** Characters the form-urlencoded serializer leaves as they are. */
  predicate FormSafe(c: char) {
    IsAsciiAlnum(c) || c == '*' || c == '-' || c == '.' || c == '_'
  }

  predicate IsHexDigit(c: char) {
    ('0' <= c <= '9') || ('A' <= c <= 'F') || ('a' <= c <= 'f')
  }

  function HexValue(c: char): (d: nat)
    requires IsHexDigit(c)
    ensures d < 16
  {
    if '0' <= c <= '9' then (c as int) - ('0' as int)
    else if 'A' <= c <= 'F' then (c as int) - ('A' as int) + 10
    else (c as int) - ('a' as int) + 10
  }

  /** The upper-case hex digit for `d`. */
  function HexChar(d: nat): (c: char)
    requires d < 16
    ensures IsHexDigit(c) && HexValue(c) == d
  {
    if d < 10 then (('0' as int) + d) as char else (('A' as int) + d - 10) as char
  }

  /** One byte as `%XY` with upper-case hex digits. */
  function PercentByte(b: Byte): (r: string)
    ensures |r| == 3 && r[0] == '%' && IsHexDigit(r[1]) && IsHexDigit(r[2])
    ensures 16 * HexValue(r[1]) + HexValue(r[2]) == b
  {
    ['%', HexChar(b / 16), HexChar(b % 16)]
  }

  function PercentBytes(bs: seq<Byte>): (r: string)
    ensures |r| == 3 * |bs|
  {
    if bs == [] then [] else PercentByte(bs[0]) + PercentBytes(bs[1..])
  }

  /** The UTF-8 encoding of one Unicode scalar value. */
  function Utf8(c: char): (bs: seq<Byte>)
    ensures 1 <= |bs| <= 4
  {
    var n := c as int;
    if n < 0x80 then [n]
    else if n < 0x800 then [0xC0 + n / 64, 0x80 + n % 64]
    else if n < 0x1_0000 then [0xE0 + n / 4096, 0x80 + (n / 64) % 64, 0x80 + n % 64]
    else [0xF0 + n / 262144, 0x80 + (n / 4096) % 64, 0x80 + (n / 64) % 64, 0x80 + n % 64]
  }

  /** Characters that the two encoders can emit for a percent-encoded character. */
  predicate IsEncodingChar(c: char) {
    c == '%' || IsHexDigit(c)
  }

  lemma PercentBytesChars(bs: seq<Byte>)
    ensures forall k :: 0 <= k < |PercentBytes(bs)| ==> IsEncodingChar(PercentBytes(bs)[k])
  {
    if bs != [] {
      var r := PercentBytes(bs);
      PercentBytesChars(bs[1..]);
      assert r == PercentByte(bs[0]) + PercentBytes(bs[1..]);
      forall k | 0 <= k < |r| ensures IsEncodingChar(r[k]) {
        if k >= 3 { assert r[k] == PercentBytes(bs[1..])[k - 3]; }
      }
    }
  }

  /** `encodeURIComponent` applied to one character. */
  function EncodeUriChar(c: char): (r: string)
    ensures forall k :: 0 <= k < |r| ==> UriUnreserved(r[k]) || IsEncodingChar(r[k])
  {
    if UriUnreserved(c) then [c]
    else
      PercentBytesChars(Utf8(c));
      PercentBytes(Utf8(c))
  }

  /** `encodeURIComponent(s)`: every character outside the unreserved set becomes the
      percent-encoded bytes of its UTF-8 encoding. */
  function EncodeUriComponent(s: string): (r: string)
    ensures forall k :: 0 <= k < |r| ==> UriUnreserved(r[k]) || IsEncodingChar(r[k])
  {
    if s == [] then []
    else
      var head, tail := EncodeUriChar(s[0]), EncodeUriComponent(s[1..]);
      assert forall k :: |head| <= k < |head + tail| ==> (head + tail)[k] == tail[k - |head|];
      head + tail
  }

  /** The form serializer applied to one character: a space becomes `+`. */
  function FormEncodeChar(c: char): (r: string)
    ensures forall k :: 0 <= k < |r| ==> FormSafe(r[k]) || r[k] == '+' || IsEncodingChar(r[k])
  {
    if c == ' ' then "+"
    else if FormSafe(c) then [c]
    else
      PercentBytesChars(Utf8(c));
      PercentBytes(Utf8(c))
  }

  function FormEncode(s: string): (r: string)
    ensures forall k :: 0 <= k < |r| ==> FormSafe(r[k]) || r[k] == '+' || IsEncodingChar(r[k])
  {
    if s == [] then []
    else
      var head, tail := FormEncodeChar(s[0]), FormEncode(s[1..]);
      assert forall k :: |head| <= k < |head + tail| ==> (head + tail)[k] == tail[k - |head|];
      head + tail
  }

  /** `new URLSearchParams(params).toString()`: `key=value` pairs joined by `&`. */
  function QueryString(params: seq<(string, string)>): (r: string)
    ensures r == [] <==> params == []
  {
    if params == [] then []
    else
      var first := FormEncode(params[0].0) + "=" + FormEncode(params[0].1);
      assert first[|FormEncode(params[0].0)|] == '=';
      if |params| == 1 then first else first + "&" + QueryString(params[1..])
  }

  // ---- decoding ----

  /** The byte written as `%XY` at position `i`, if there is one. */
  function ReadByte(s: string, i: nat): Option<Byte> {
    if i + 3 <= |s| && s[i] == '%' && IsHexDigit(s[i + 1]) && IsHexDigit(s[i + 2])
    then Some(16 * HexValue(s[i + 1]) + HexValue(s[i + 2]))
    else None
  }

  /** `count` consecutive percent-encoded bytes starting at `i`. */
  function ReadBytes(s: string, i: nat, count: nat): (r: Option<seq<Byte>>)
    ensures r.Some? ==> |r.value| == count
    decreases count
  {
    if count == 0 then Some([])
    else
      match ReadByte(s, i)
      case None => None
      case Some(b) =>
        match ReadBytes(s, i + 3, count - 1)
        case None => None
        case Some(rest) => Some([b] + rest)
  }

  /** How many bytes a UTF-8 sequence starting with `b` has; 0 for a byte that cannot start one. */
  function SequenceLength(b: Byte): nat {
    if b < 0x80 then 1
    else if 0xC0 <= b < 0xE0 then 2
    else if 0xE0 <= b < 0xF0 then 3
    else if 0xF0 <= b < 0xF8 then 4
    else 0
  }

  predicate IsContinuation(b: Byte) {
    0x80 <= b < 0xC0
  }

  /** The scalar value a well-formed, shortest-form UTF-8 sequence encodes. */
  function Utf8Decode(bs: seq<Byte>): Option<char>
    requires 1 <= |bs| <= 4
  {
    if |bs| != SequenceLength(bs[0]) then None
    else if exists k :: 1 <= k < |bs| && !IsContinuation(bs[k]) then None
    else if |bs| == 1 then Some(bs[0] as char)
    else if |bs| == 2 then
      var n: int := (bs[0] as int - 0xC0) * 64 + (bs[1] as int - 0x80);
      if n < 0x80 then None else Some(n as char)
    else if |bs| == 3 then
      var n: int := (bs[0] as int - 0xE0) * 4096 + (bs[1] as int - 0x80) * 64 + (bs[2] as int - 0x80);
      if n < 0x800 || (0xD800 <= n < 0xE000) then None else Some(n as char)
    else
      var n: int := (bs[0] as int - 0xF0) * 262144 + (bs[1] as int - 0x80) * 4096 + (bs[2] as int - 0x80) * 64 + (bs[3] as int - 0x80);
      if n < 0x1_0000 || n >= 0x11_0000 then None else Some(n as char)
  }

  /** The character a run of percent-encoded bytes at the start of `s` stands for, and the
      length of that run. */
  function DecodeEscape(s: string): (r: Option<(char, nat)>)
    ensures r.Some? ==> 3 <= r.value.1 <= |s|
  {
    match ReadByte(s, 0)
    case None => None
    case Some(b) =>
      var len := SequenceLength(b);
      if len == 0 then None
      else
        match ReadBytes(s, 0, len)
        case None => None
        case Some(bs) =>
          assert 3 * len <= |s| by { ReadBytesLength(s, 0, len); }
          match Utf8Decode(bs)
          case None => None
          case Some(c) => Some((c, 3 * len))
  }

  lemma {:induction false} ReadBytesLength(s: string, i: nat, count: nat)
    requires ReadBytes(s, i, count).Some?
    ensures i + 3 * count <= |s| || count == 0
    decreases count
  {
    if count > 0 {
      ReadBytesLength(s, i + 3, count - 1);
    }
  }

  /** `decodeURIComponent(s)`: None where it would throw a URIError. */
  function DecodeUriComponent(s: string): Option<string>
    decreases |s|
  {
    if s == [] then Some([])
    else if s[0] != '%' then
      match DecodeUriComponent(s[1..])
      case None => None
      case Some(t) => Some([s[0]] + t)
    else
      match DecodeEscape(s)
      case None => None
      case Some(p) =>
        match DecodeUriComponent(s[p.1..])
        case None => None
        case Some(t) => Some([p.0] + t)
  }

  // ---- round trip ----

  lemma {:induction false} ReadPercentBytes(bs: seq<Byte>, t: string)
    ensures ReadBytes(PercentBytes(bs) + t, 0, |bs|) == Some(bs)
    decreases |bs|
  {
    if bs != [] {
      var p, rest := PercentByte(bs[0]), PercentBytes(bs[1..]) + t;
      assert PercentBytes(bs) + t == p + rest;
      ReadByteOfPercent(bs[0], rest);
      ReadPercentBytes(bs[1..], t);
      ReadBytesShift(p, rest, |bs| - 1);
      assert [bs[0]] + bs[1..] == bs;
    }
  }

  lemma ReadByteOfPercent(b: Byte, rest: string)
    ensures ReadByte(PercentByte(b) + rest, 0) == Some(b)
  {
    var p := PercentByte(b);
    assert (p + rest)[0] == p[0] && (p + rest)[1] == p[1] && (p + rest)[2] == p[2];
  }

  /** Reading bytes further into a string does not depend on the three characters in front. */
  lemma {:induction false} ReadBytesShift(p: string, s: string, count: nat)
    requires |p| == 3
    ensures ReadBytes(p + s, 3, count) == ReadBytes(s, 0, count)
  {
    ReadBytesShiftAt(p, s, 0, count);
  }

  lemma {:induction false} ReadBytesShiftAt(p: string, s: string, i: nat, count: nat)
    requires |p| == 3
    ensures ReadBytes(p + s, i + 3, count) == ReadBytes(s, i, count)
    decreases count
  {
    if count > 0 {
      assert ReadByte(p + s, i + 3) == ReadByte(s, i) by {
        if i + 3 <= |s| {
          assert (p + s)[i + 3] == s[i];
          assert (p + s)[i + 4] == s[i + 1];
          assert (p + s)[i + 5] == s[i + 2];
        }
      }
      ReadBytesShiftAt(p, s, i + 3, count - 1);
    }
  }

  /** Decoding the UTF-8 encoding of a character gives it back. */
  lemma Utf8RoundTrip(c: char)
    ensures SequenceLength(Utf8(c)[0]) == |Utf8(c)|
    ensures Utf8Decode(Utf8(c)) == Some(c)
  {
    var n := c as int;
    if n < 0x80 {
    } else if n < 0x800 {
      Utf8RoundTripTwo(c);
    } else if n < 0x1_0000 {
      Utf8RoundTripThree(c);
    } else {
      Utf8RoundTripFour(c);
    }
  }

  lemma Utf8RoundTripTwo(c: char)
    requires 0x80 <= c as int < 0x800
    ensures SequenceLength(Utf8(c)[0]) == |Utf8(c)|
    ensures Utf8Decode(Utf8(c)) == Some(c)
  {
    var n := c as int;
    assert (n / 64) * 64 + n % 64 == n;
  }

  lemma Utf8RoundTripThree(c: char)
    requires 0x800 <= c as int < 0x1_0000
    ensures SequenceLength(Utf8(c)[0]) == |Utf8(c)|
    ensures Utf8Decode(Utf8(c)) == Some(c)
  {
    var n := c as int;
    assert n / 64 == (n / 4096) * 64 + (n / 64) % 64;
    assert (n / 4096) * 4096 + ((n / 64) % 64) * 64 + n % 64 == n;
  }

  lemma Utf8RoundTripFour(c: char)
    requires 0x1_0000 <= c as int
    ensures SequenceLength(Utf8(c)[0]) == |Utf8(c)|
    ensures Utf8Decode(Utf8(c)) == Some(c)
  {
    var n := c as int;
    assert n / 4096 == (n / 262144) * 64 + (n / 4096) % 64;
    assert n / 64 == (n / 4096) * 64 + (n / 64) % 64;
    assert (n / 262144) * 262144 + ((n / 4096) % 64) * 4096 + ((n / 64) % 64) * 64 + n % 64 == n;
  }

  /** The escape run written for a reserved character reads back as that character. */
  lemma DecodeEscapeOfChar(c: char, t: string)
    requires !UriUnreserved(c)
    ensures DecodeEscape(EncodeUriChar(c) + t) == Some((c, |EncodeUriChar(c)|))
  {
    var bs := Utf8(c);
    var s := PercentBytes(bs) + t;
    Utf8RoundTrip(c);
    ReadPercentBytes(bs, t);
    assert PercentBytes(bs) == PercentByte(bs[0]) + PercentBytes(bs[1..]);
    assert s[..3] == PercentByte(bs[0]);
    assert ReadByte(s, 0) == Some(bs[0]);
  }

  /** `decodeURIComponent` inverts `encodeURIComponent`. */
  lemma {:induction false} UriRoundTrip(s: string)
    ensures DecodeUriComponent(EncodeUriComponent(s)) == Some(s)
    decreases |s|
  {
    if s != [] {
      var tail := EncodeUriComponent(s[1..]);
      assert EncodeUriComponent(s) == EncodeUriChar(s[0]) + tail;
      UriRoundTrip(s[1..]);
      DecodeEncodedChar(s[0], tail, s[1..]);
      assert [s[0]] + s[1..] == s;
    }
  }

  /** Decoding an encoded character followed by text reads the character and then the text. */
  lemma DecodeEncodedChar(c: char, tail: string, t: string)
    requires DecodeUriComponent(tail) == Some(t)
    ensures DecodeUriComponent(EncodeUriChar(c) + tail) == Some([c] + t)
  {
    var head := EncodeUriChar(c);
    var e := head + tail;
    if UriUnreserved(c) {
      assert e[0] == c && e[1..] == tail;
    } else {
      DecodeEscapeOfChar(c, tail);
      assert e[0] == '%';
      assert e[|head|..] == tail;
    }
  }
}

/**
 * `StrToBytesDecoder` (ai_grpc_utils/decoders.py): `result.encode("utf-8")`, i.e. UTF-8 as defined in
 * section 3 of RFC 3629, with Python's strict error handling for code points that are not scalar values.
 */
module Utf8 {
  import opened Outcomes
  import opened Values

  /** U+D800..U+DFFF are reserved for UTF-16 and excluded from UTF-8 (section 3 of RFC 3629). */
  predicate IsSurrogate(c: CodePoint) { 0xD800 <= c <= 0xDFFF }

  predicate IsContinuation(b: Byte) { 0x80 <= b < 0xC0 }

  /** Number of octets section 3 of RFC 3629 assigns to a code point. */
  function Width(c: CodePoint): (n: nat)
    ensures 1 <= n <= 4
  {
    if c < 0x80 then 1 else if c < 0x800 then 2 else if c < 0x1_0000 then 3 else 4
  }

  /** The octet sequence of one scalar value; the lead octet carries the width, the rest are 10xxxxxx. */
  function EncodeScalar(c: CodePoint): (r: seq<Byte>)
    requires !IsSurrogate(c)
    ensures |r| == Width(c)
    ensures c < 0x80 ==> r == [c]
    ensures forall i :: 1 <= i < |r| ==> IsContinuation(r[i])
  {
    if c < 0x80 then [c]
    else if c < 0x800 then [0xC0 + c / 0x40, 0x80 + c % 0x40]
    else if c < 0x1_0000 then [0xE0 + c / 0x1000, 0x80 + (c / 0x40) % 0x40, 0x80 + c % 0x40]
    else [0xF0 + c / 0x4_0000, 0x80 + (c / 0x1000) % 0x40, 0x80 + (c / 0x40) % 0x40, 0x80 + c % 0x40]
  }

  predicate AllScalars(s: seq<CodePoint>) { forall i :: 0 <= i < |s| ==> !IsSurrogate(s[i]) }

  /** UTF-8 of a sequence of scalar values: the octets of each code point, in order. */
  function EncodeAll(s: seq<CodePoint>): (r: seq<Byte>)
    requires AllScalars(s)
    ensures |s| <= |r| <= 4 * |s|
    decreases |s|
  {
    if s == [] then [] else EncodeScalar(s[0]) + EncodeAll(s[1..])
  }

  /** Index of the first surrogate, where the strict encoder stops. */
  function FirstSurrogate(s: seq<CodePoint>): (r: Option<nat>)
    ensures r.None? <==> AllScalars(s)
    ensures r.Some? ==> r.value < |s| && IsSurrogate(s[r.value])
                        && forall j :: 0 <= j < r.value ==> !IsSurrogate(s[j])
    decreases |s|
  {
    if s == [] then None
    else if IsSurrogate(s[0]) then Some(0)
    else match FirstSurrogate(s[1..])
      case None => None
      case Some(k) => Some(k + 1)
  }

  /** `str.encode("utf-8")`: the octets, or UnicodeEncodeError at the first surrogate. */
  function Encode(s: seq<CodePoint>): (r: Outcome<seq<Byte>>)
    ensures r.Ok? <==> AllScalars(s)
    ensures r.Ok? ==> r.value == EncodeAll(s)
    ensures r.Fail? ==> exists p :: 0 <= p < |s| && IsSurrogate(s[p]) && r.error == UnicodeEncodeError(p)
  {
    match FirstSurrogate(s)
    case None => Ok(EncodeAll(s))
    case Some(p) => Fail(UnicodeEncodeError(p))
  }

  /**
   * Reads one well-formed character from the front of `b` (the syntax of section 4 of RFC 3629:
   * shortest form only, no surrogates, nothing above U+10FFFF), giving the code point and its width.
   */
  function DecodeFirst(b: seq<Byte>): (r: Option<(CodePoint, nat)>)
    ensures r.Some? ==> 1 <= r.value.1 <= |b| && r.value.1 <= 4 && !IsSurrogate(r.value.0)
  {
    if |b| == 0 then None
    else if b[0] < 0x80 then Some((b[0], 1))
    else if 0xC0 <= b[0] < 0xE0 && |b| >= 2 && IsContinuation(b[1]) then
      var c := (b[0] as int - 0xC0) * 0x40 + (b[1] as int - 0x80);
      if c < 0x80 then None else Some((c, 2))
    else if 0xE0 <= b[0] < 0xF0 && |b| >= 3 && IsContinuation(b[1]) && IsContinuation(b[2]) then
      var c := (b[0] as int - 0xE0) * 0x1000 + (b[1] as int - 0x80) * 0x40 + (b[2] as int - 0x80);
      if c < 0x800 || 0xD800 <= c <= 0xDFFF then None else Some((c, 3))
    else if 0xF0 <= b[0] < 0xF8 && |b| >= 4 && IsContinuation(b[1]) && IsContinuation(b[2]) && IsContinuation(b[3]) then
      var c := (b[0] as int - 0xF0) * 0x4_0000 + (b[1] as int - 0x80) * 0x1000 + (b[2] as int - 0x80) * 0x40 + (b[3] as int - 0x80);
      if c < 0x1_0000 || c > 0x10_FFFF then None else Some((c, 4))
    else None
  }

  /** Strict UTF-8 decoding: None on any ill-formed octet sequence. */
  function Decode(b: seq<Byte>): (r: Option<seq<CodePoint>>)
    decreases |b|
  {
    if b == [] then Some([])
    else match DecodeFirst(b)
      case None => None
      case Some((c, n)) =>
        match Decode(b[n..])
        case None => None
        case Some(rest) => Some([c] + rest)
  }

  /** The decoder reads back exactly the character the encoder wrote, whatever follows it. */
  lemma DecodeFirstEncodeScalar(c: CodePoint, rest: seq<Byte>)
    requires !IsSurrogate(c)
    ensures DecodeFirst(EncodeScalar(c) + rest) == Some((c, Width(c)))
  {
    if c < 0x80 {
    } else if c < 0x800 {
      DecodeTwo(c, rest);
    } else if c < 0x1_0000 {
      DecodeThree(c, rest);
    } else {
      DecodeFour(c, rest);
    }
  }

  lemma DecodeTwo(c: CodePoint, rest: seq<Byte>)
    requires 0x80 <= c < 0x800
    ensures DecodeFirst(EncodeScalar(c) + rest) == Some((c, 2))
  {
    var b := EncodeScalar(c) + rest;
    assert b[0] == 0xC0 + c / 0x40 && b[1] == 0x80 + c % 0x40;
  }

  lemma DecodeThree(c: CodePoint, rest: seq<Byte>)
    requires 0x800 <= c < 0x1_0000 && !IsSurrogate(c)
    ensures DecodeFirst(EncodeScalar(c) + rest) == Some((c, 3))
  {
    var b := EncodeScalar(c) + rest;
    var hi, mid, lo := c / 0x1000, (c / 0x40) % 0x40, c % 0x40;
    Digits(c / 0x40, 0x40);
    Digits(c, 0x40);
    assert c / 0x1000 == (c / 0x40) / 0x40;
    assert hi * 0x1000 + mid * 0x40 + lo == c;
    assert b[0] == 0xE0 + hi && b[1] == 0x80 + mid && b[2] == 0x80 + lo;
  }

  lemma DecodeFour(c: CodePoint, rest: seq<Byte>)
    requires 0x1_0000 <= c
    ensures DecodeFirst(EncodeScalar(c) + rest) == Some((c, 4))
  {
    var b := EncodeScalar(c) + rest;
    var top, hi, mid, lo := c / 0x4_0000, (c / 0x1000) % 0x40, (c / 0x40) % 0x40, c % 0x40;
    Digits(c / 0x1000, 0x40);
    Digits(c / 0x40, 0x40);
    Digits(c, 0x40);
    assert c / 0x1000 == (c / 0x40) / 0x40;
    assert c / 0x4_0000 == (c / 0x1000) / 0x40;
    assert top * 0x4_0000 + hi * 0x1000 + mid * 0x40 + lo == c;
    assert b[0] == 0xF0 + top && b[1] == 0x80 + hi && b[2] == 0x80 + mid && b[3] == 0x80 + lo;
  }

  lemma Digits(n: nat, d: nat)
    requires d > 0
    ensures n == (n / d) * d + n % d
  {
  }

  /** Decoding restores the input: UTF-8 decoding is a left inverse of the encoder. */
  lemma {:induction false} DecodeEncode(s: seq<CodePoint>)
    requires AllScalars(s)
    ensures Decode(EncodeAll(s)) == Some(s)
    decreases |s|
  {
    if s != [] {
      var head, tail := EncodeScalar(s[0]), EncodeAll(s[1..]);
      DecodeFirstEncodeScalar(s[0], tail);
      assert (head + tail)[|head|..] == tail;
      DecodeEncode(s[1..]);
      assert [s[0]] + s[1..] == s;
    }
  }

  /** Two strings with the same UTF-8 are the same string. */
  lemma EncodeInjective(s: seq<CodePoint>, t: seq<CodePoint>)
    requires AllScalars(s) && AllScalars(t)
    requires EncodeAll(s) == EncodeAll(t)
    ensures s == t
  {
    DecodeEncode(s);
    DecodeEncode(t);
  }

  /** Encoding distributes over concatenation. */
  lemma {:induction false} EncodeAppend(s: seq<CodePoint>, t: seq<CodePoint>)
    requires AllScalars(s) && AllScalars(t)
    ensures AllScalars(s + t)
    ensures EncodeAll(s + t) == EncodeAll(s) + EncodeAll(t)
    decreases |s|
  {
    if s == [] {
      assert s + t == t;
    } else {
      assert (s + t)[1..] == s[1..] + t;
      EncodeAppend(s[1..], t);
    }
  }

  /** Every U+0000..U+007F is the single octet with the same value, so ASCII text comes back unchanged. */
  lemma {:induction false} EncodeAscii(s: seq<CodePoint>)
    requires forall i :: 0 <= i < |s| ==> s[i] < 0x80
    ensures AllScalars(s)
    ensures |EncodeAll(s)| == |s|
    ensures forall i :: 0 <= i < |s| ==> EncodeAll(s)[i] == s[i]
    decreases |s|
  {
    if s != [] {
      EncodeAscii(s[1..]);
    }
  }

  /** A code point that is not a scalar value makes the whole encoding fail: no octets are produced. */
  lemma SurrogateRejected(s: seq<CodePoint>, i: nat)
    requires i < |s| && IsSurrogate(s[i])
    ensures Encode(s).Fail? && Encode(s).error.UnicodeEncodeError?
    ensures Encode(s).error.position <= i
  {
  }

  /**
   * `StrToBytesDecoder()(result, *args, **kwds)`: the UTF-8 bytes of a `str` result.  A non-`str`
   * result has no `encode` attribute; a surrogate raises UnicodeEncodeError.
   */
  function StrToBytesDecoder(result: Value, args: seq<Value>, kwds: Kwargs): (r: Outcome<Value>)
    ensures r.Ok? <==> result.Str? && AllScalars(result.text)
    ensures r.Ok? ==> r.value.Bytes? && Decode(r.value.bytes) == Some(result.text)
    ensures !result.Str? ==> r == Fail(AttributeError("encode"))
  {
    if !result.Str? then Fail(AttributeError("encode"))
    else
      match Encode(result.text)
      case Ok(b) =>
        DecodeEncode(result.text);
        Ok(Bytes(b))
      case Fail(e) => Fail(e)
  }

  /** A Dafny string is a sequence of Unicode scalar values, so it always encodes. */
  lemma TextIsScalar(s: string)
    ensures AllScalars(Text(s))
  {
  }

  /** Extra positional and keyword arguments are ignored: the output depends on `result` only. */
  lemma DecoderIgnoresExtraArguments(result: Value, a1: seq<Value>, k1: Kwargs, a2: seq<Value>, k2: Kwargs)
    ensures StrToBytesDecoder(result, a1, k1) == StrToBytesDecoder(result, a2, k2)
  {
  }

  /** Each character of an ASCII-only `str` becomes the byte with the same value. */
  lemma DecoderOnAscii(s: string)
    requires forall i :: 0 <= i < |s| ==> s[i] < 0x80 as char
    ensures StrToBytesDecoder(Str(Text(s)), [], []).Ok?
    ensures var b := StrToBytesDecoder(Str(Text(s)), [], []).value.bytes;
            |b| == |s| && forall i :: 0 <= i < |s| ==> b[i] == s[i] as int
  {
    EncodeAscii(Text(s));
  }
}

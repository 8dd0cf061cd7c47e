/**
 Recursive length prefix encoding, from Appendix B of the Ethereum Yellow Paper.

 The repository encodes and decodes with the fastrlp library, which is not part of this model; on
 what the encoder produces it has to agree with the standard.
 */
module Rlp {
  import opened Bytes

  datatype Value = Str(bytes: Bytes) | List(elems: seq<Value>)

  datatype Parsed = Malformed | Parsed(value: Value, rest: Bytes)

  datatype ParsedAll = MalformedAll | ParsedAll(values: seq<Value>)

  /** Longer payloads have no encoding. */
  const LIMIT := 0x1_0000_0000_0000_0000

  function Header(len: nat, base: Byte): (h: Bytes)
    requires base == 0x80 || base == 0xc0
    ensures h != []
  {
    if len < 56 then [base + len]
    else
      var l := ToBytes(len);
      [(base + 55 + |l|) % 256] + l
  }

  function Encode(v: Value): Bytes
    decreases v, 1
  {
    match v
    case Str(b) => if |b| == 1 && b[0] < 0x80 then b else Header(|b|, 0x80) + b
    case List(elems) =>
      var payload := EncodeAll(elems);
      Header(|payload|, 0xc0) + payload
  }

  function EncodeAll(vs: seq<Value>): Bytes
    decreases vs, 0
  {
    if vs == [] then [] else Encode(vs[0]) + EncodeAll(vs[1..])
  }

  /** The payload that follows a prefix of `skip` bytes, or nothing when it is cut short. */
  function Payload(b: Bytes, skip: nat, len: nat): (r: (bool, Bytes, Bytes))
    ensures r.0 <==> skip + len <= |b|
    ensures r.0 ==> r.1 == b[skip..skip + len] && r.2 == b[skip + len..]
  {
    if skip + len <= |b| then (true, b[skip..skip + len], b[skip + len..]) else (false, [], [])
  }

  function ParseStr(b: Bytes, skip: nat, len: nat): (r: Parsed)
    ensures r.Parsed? && 0 < skip ==> |r.rest| < |b|
  {
    var (ok, payload, rest) := Payload(b, skip, len);
    if ok then Parsed(Str(payload), rest) else Malformed
  }

  function ParseList(b: Bytes, skip: nat, len: nat): (r: Parsed)
    requires 0 < skip <= |b|
    ensures r.Parsed? ==> |r.rest| < |b|
    decreases |b|, 0
  {
    var (ok, payload, rest) := Payload(b, skip, len);
    if !ok then Malformed
    else
      match ParseAll(payload)
      case MalformedAll => Malformed
      case ParsedAll(vs) => Parsed(List(vs), rest)
  }

  /** One value from the front of a byte string. */
  function Parse(b: Bytes): (r: Parsed)
    ensures r.Parsed? ==> |r.rest| < |b|
    decreases |b|, 1
  {
    if b == [] then Malformed
    else
      var c := b[0];
      if c < 0x80 then Parsed(Str([c]), b[1..])
      else if c < 0xb8 then ParseStr(b, 1, c - 0x80)
      else if c < 0xc0 then
        var n := c - 0xb7;
        if 1 + n > |b| then Malformed else ParseStr(b, 1 + n, FromBytes(b[1..1 + n]))
      else if c < 0xf8 then ParseList(b, 1, c - 0xc0)
      else
        var n := c - 0xf7;
        if 1 + n > |b| then Malformed else ParseList(b, 1 + n, FromBytes(b[1..1 + n]))
  }

  /** The values that make up a list's payload. */
  function ParseAll(b: Bytes): (r: ParsedAll)
    decreases |b|, 2
  {
    if b == [] then ParsedAll([])
    else
      match Parse(b)
      case Malformed => MalformedAll
      case Parsed(v, rest) =>
        match ParseAll(rest)
        case MalformedAll => MalformedAll
        case ParsedAll(vs) => ParsedAll([v] + vs)
  }

  /** A whole input is one value and nothing after it. */
  function Decode(b: Bytes): Parsed {
    match Parse(b)
    case Malformed => Malformed
    case Parsed(v, rest) => if rest == [] then Parsed(v, []) else Malformed
  }

  // ---- round trips ----

  lemma Slices(first: Byte, l: Bytes, tail: Bytes)
    ensures var b := [first] + l + tail;
            b[0] == first && b[1..1 + |l|] == l && b[1 + |l|..] == tail
  {
  }

  /** The length of a long payload is read back from its header. */
  lemma LongHeader(len: nat, base: Byte, tail: Bytes)
    requires base == 0x80 || base == 0xc0
    requires 56 <= len < LIMIT
    ensures var l := ToBytes(len);
            var b := Header(len, base) + tail;
            && 1 <= |l| <= 8
            && b[0] == base + 55 + |l|
            && |b| == 1 + |l| + |tail|
            && FromBytes(b[1..1 + |l|]) == len
            && b[1 + |l|..] == tail
  {
    var l := ToBytes(len);
    Uint64Size(len);
    NoLeadingZero(len);
    FromTo(len);
    Slices(base + 55 + |l|, l, tail);
  }

  lemma StrRoundTrip(s: Bytes, rest: Bytes)
    requires |s| < LIMIT
    ensures Parse(Encode(Str(s)) + rest) == Parsed(Str(s), rest)
  {
    var b := Encode(Str(s)) + rest;
    if |s| == 1 && s[0] < 0x80 {
      assert b[1..] == rest && [b[0]] == s;
    } else if |s| < 56 {
      assert b[1..1 + |s|] == s && b[1 + |s|..] == rest;
    } else {
      LongHeader(|s|, 0x80, s + rest);
      hide ToBytes, FromBytes;
      var n := 1 + |ToBytes(|s|)|;
      assert b == Header(|s|, 0x80) + (s + rest);
      hide Header;
      assert b[n..n + |s|] == s && b[n + |s|..] == rest;
    }
  }

  lemma ShortListParses(p: Bytes, vs: seq<Value>, rest: Bytes)
    requires |p| < 56 && ParseAll(p) == ParsedAll(vs)
    ensures Parse([0xc0 + |p|] + p + rest) == Parsed(List(vs), rest)
  {
    hide ParseAll;
    var b := [0xc0 + |p|] + p + rest;
    assert b[1..1 + |p|] == p && b[1 + |p|..] == rest;
  }

  lemma LongListParses(p: Bytes, vs: seq<Value>, rest: Bytes)
    requires 56 <= |p| < LIMIT && ParseAll(p) == ParsedAll(vs)
    ensures Parse(Header(|p|, 0xc0) + p + rest) == Parsed(List(vs), rest)
  {
    hide ParseAll;
    var b := Header(|p|, 0xc0) + p + rest;
    assert b == Header(|p|, 0xc0) + (p + rest);
    LongHeader(|p|, 0xc0, p + rest);
    hide ToBytes, FromBytes, Header;
    var n := 1 + |ToBytes(|p|)|;
    assert b[n..] == p + rest;
    assert b[n..n + |p|] == p && b[n + |p|..] == rest;
  }

  lemma {:induction false} ListRoundTrip(vs: seq<Value>, rest: Bytes)
    requires |EncodeAll(vs)| < LIMIT
    ensures Parse(Encode(List(vs)) + rest) == Parsed(List(vs), rest)
    decreases vs, 1
  {
    var p := EncodeAll(vs);
    AllRoundTrip(vs);
    hide Parse, ParseAll, EncodeAll;
    if |p| < 56 {
      ShortListParses(p, vs, rest);
    } else {
      LongListParses(p, vs, rest);
    }
  }

  lemma {:induction false} AllRoundTrip(vs: seq<Value>)
    requires |EncodeAll(vs)| < LIMIT
    ensures ParseAll(EncodeAll(vs)) == ParsedAll(vs)
    decreases vs, 0
  {
    if vs != [] {
      var rest := EncodeAll(vs[1..]);
      RoundTrip(vs[0], rest);
      AllRoundTrip(vs[1..]);
      assert Encode(vs[0]) != [];
    }
  }

  /** Parsing undoes encoding and leaves what follows. */
  lemma {:induction false} RoundTrip(v: Value, rest: Bytes)
    requires |Encode(v)| < LIMIT
    ensures Parse(Encode(v) + rest) == Parsed(v, rest)
    ensures Encode(v) != []
    decreases v, 2
  {
    match v
    case Str(s) => StrRoundTrip(s, rest);
    case List(vs) => ListRoundTrip(vs, rest);
  }

  lemma DecodeEncode(v: Value)
    requires |Encode(v)| < LIMIT
    ensures Decode(Encode(v)) == Parsed(v, [])
  {
    RoundTrip(v, []);
    assert Encode(v) + [] == Encode(v);
  }

  /** Different values have different encodings. */
  lemma EncodeInjective(v: Value, w: Value)
    requires |Encode(v)| < LIMIT && Encode(v) == Encode(w)
    ensures v == w
  {
    DecodeEncode(v);
    DecodeEncode(w);
  }

  /** A list never starts like a type byte. */
  lemma ListFirstByte(vs: seq<Value>)
    requires |Encode(List(vs))| < LIMIT
    ensures Encode(List(vs)) != [] && Encode(List(vs))[0] >= 0xc0
  {
    var p := EncodeAll(vs);
    if |p| >= 56 {
      LongHeader(|p|, 0xc0, p);
    }
  }
}

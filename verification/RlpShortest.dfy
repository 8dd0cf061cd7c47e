/**
 The encoder against the standard: byte by byte, and as the shortest input that decodes to the value.

 The reader also accepts longer forms, as a single small byte under a header or a length with
 leading zeros; so a round trip alone would leave the writer free to choose one of them.
 */
module RlpShortest {
  import opened Bytes
  import opened Rlp

  // ---- the forms of Appendix B ----

  /** A string on the wire. */
  lemma StringForm(s: Bytes)
    requires |s| < LIMIT
    ensures var x := Encode(Str(s));
            if |s| == 1 && s[0] <= 127 then x == s
            else if |s| <= 55 then x == [128 + |s|] + s
            else |s| == FromBytes(x[1..|x| - |s|]) && x[|x| - |s|..] == s && LongForm(x, 183, |x| - |s| - 1)
  {
    if |s| > 55 {
      LongHeader(|s|, 0x80, s);
    }
    LongHeaderForm(|s|, 0x80, s);
  }

  /** A list on the wire: its elements one after another under one header. */
  lemma ListForm(vs: seq<Value>)
    requires |EncodeAll(vs)| < LIMIT
    ensures var x, p := Encode(List(vs)), EncodeAll(vs);
            if |p| <= 55 then x == [192 + |p|] + p
            else |p| == FromBytes(x[1..|x| - |p|]) && x[|x| - |p|..] == p && LongForm(x, 247, |x| - |p| - 1)
    ensures vs == [] ==> EncodeAll(vs) == []
    ensures forall v, us | vs == [v] + us :: EncodeAll(vs) == Encode(v) + EncodeAll(us)
  {
    var p := EncodeAll(vs);
    if |p| > 55 {
      LongHeader(|p|, 0xc0, p);
    }
    LongHeaderForm(|p|, 0xc0, p);
    forall v, us | vs == [v] + us ensures vs[0] == v && vs[1..] == us {
    }
  }

  /** The first byte says how many bytes of length follow: one to eight, the first of them not zero. */
  predicate LongForm(x: Bytes, base: nat, n: int) {
    1 <= n <= 8 && n < |x| && x[0] == base + n && x[1] != 0
  }

  lemma LongHeaderForm(len: nat, base: Byte, tail: Bytes)
    requires (base == 0x80 || base == 0xc0) && len < LIMIT && |tail| == len
    ensures var x := Header(len, base) + tail;
            if len <= 55 then x == [base + len] + tail
            else x[|x| - len..] == tail && LongForm(x, base + 55, |x| - len - 1)
                 && FromBytes(x[1..|x| - len]) == len
  {
    if len > 55 {
      LongHeader(len, base, tail);
      NoLeadingZero(len);
    }
  }

  /** Nothing but the encoding itself is decoded: what follows it makes the input malformed. */
  lemma NothingMayFollow(v: Value, tail: Bytes)
    requires |Encode(v)| < LIMIT
    ensures Decode(Encode(v) + tail) == if tail == [] then Parsed(v, []) else Malformed
  {
    RoundTrip(v, tail);
  }

  // ---- the shortest form ----

  /** A header that says `len` in `skip` bytes. */
  predicate Says(x: Bytes, base: Byte, skip: nat, len: nat)
    requires base == 0x80 || base == 0xc0
  {
    && 1 <= skip <= |x|
    && if skip == 1 then len < 56 && x[0] == base + len
       else skip <= 9 && x[0] == base + 54 + skip && len == FromBytes(x[1..skip])
  }

  lemma LengthShortest(l: Bytes, a: nat)
    requires a <= FromBytes(l)
    ensures |ToBytes(a)| <= |l|
    ensures |ToBytes(a)| == |l| && a == FromBytes(l) ==> ToBytes(a) == l
  {
    ValueBound(l);
    SizeOf(a, |l|);
    PadRestores(l);
    hide ToBytes, FromBytes;
    if |ToBytes(a)| == |l| {
      assert Zeros(0) + ToBytes(a) == ToBytes(a);
    }
  }

  /** No header of a length up to that is longer, and the same length in as many bytes is the same header. */
  lemma HeaderShortest(x: Bytes, base: Byte, skip: nat, len: nat, a: nat)
    requires base == 0x80 || base == 0xc0
    requires Says(x, base, skip, len) && a <= len
    ensures |Header(a, base)| <= skip
    ensures |Header(a, base)| == skip && a == len ==> Header(a, base) == x[..skip]
  {
    if skip > 1 {
      var l := x[1..skip];
      LengthShortest(l, a);
      hide ToBytes, FromBytes;
      var h := Header(a, base);
      assert a > 55 ==> h == [base + 55 + |ToBytes(a)|] + ToBytes(a);
      hide Header;
      assert x[..skip] == [x[0]] + l;
    }
  }

  /** Read off the front of x, v is encoded in no more bytes than were read, and in as many only as
      those very bytes. */
  ghost predicate Shortest(x: Bytes, v: Value, rest: Bytes) {
    && |rest| <= |x|
    && x[|x| - |rest|..] == rest
    && |Encode(v)| <= |x| - |rest|
    && (|Encode(v)| == |x| - |rest| ==> Encode(v) == x[..|x| - |rest|])
  }

  /** A header and a payload, each as short as what stands in x. */
  lemma JoinedShortest(x: Bytes, v: Value, h: Bytes, p: Bytes, skip: nat, len: nat)
    requires skip + len <= |x| && Encode(v) == h + p
    requires |h| <= skip && |p| <= len
    requires |h| == skip && |p| == len ==> h == x[..skip] && p == x[skip..skip + len]
    ensures Shortest(x, v, x[skip + len..])
  {
    hide Encode;
    assert x[..skip + len] == x[..skip] + x[skip..skip + len];
  }

  lemma StrShortest(x: Bytes, skip: nat, len: nat)
    requires Says(x, 0x80, skip, len) && skip + len <= |x|
    ensures Shortest(x, Str(x[skip..skip + len]), x[skip + len..])
  {
    var s := x[skip..skip + len];
    HeaderShortest(x, 0x80, skip, len, len);
    if |s| == 1 && s[0] < 0x80 {
      JoinedShortest(x, Str(s), [], s, skip, len);
    } else {
      JoinedShortest(x, Str(s), Header(len, 0x80), s, skip, len);
    }
  }

  lemma {:induction false} ListShortest(x: Bytes, skip: nat, len: nat)
    requires Says(x, 0xc0, skip, len) && skip + len <= |x|
    requires ParseAll(x[skip..skip + len]).ParsedAll?
    ensures Shortest(x, List(ParseAll(x[skip..skip + len]).values), x[skip + len..])
    decreases |x|, 0
  {
    var vs := ParseAll(x[skip..skip + len]).values;
    var p := EncodeAll(vs);
    AllShortest(x[skip..skip + len]);
    HeaderShortest(x, 0xc0, skip, len, |p|);
    hide Says, Header, EncodeAll, ParseAll, Shortest;
    JoinedShortest(x, List(vs), Header(|p|, 0xc0), p, skip, len);
  }

  lemma {:induction false} AllShortest(b: Bytes)
    requires ParseAll(b).ParsedAll?
    ensures var e := EncodeAll(ParseAll(b).values); |e| <= |b| && (|e| == |b| ==> e == b)
    decreases |b|, 2
  {
    if b != [] {
      var p := Parse(b);
      ParseShortest(b);
      AllShortest(p.rest);
      assert ParseAll(b).values[1..] == ParseAll(p.rest).values;
      hide Parse, Encode;
      assert b == b[..|b| - |p.rest|] + p.rest;
    }
  }

  lemma {:induction false} ParseShortest(x: Bytes)
    requires Parse(x).Parsed?
    ensures Shortest(x, Parse(x).value, Parse(x).rest)
    decreases |x|, 1
  {
    var c := x[0];
    hide Shortest, Encode, EncodeAll, ParseAll, FromBytes, Header;
    if c < 0x80 {
      SingleShortest(x);
    } else if c < 0xb8 {
      StrShortest(x, 1, c - 0x80);
    } else if c < 0xc0 {
      StrShortest(x, c - 0xb6, FromBytes(x[1..c - 0xb6]));
    } else if c < 0xf8 {
      ListShortest(x, 1, c - 0xc0);
    } else {
      ListShortest(x, c - 0xf6, FromBytes(x[1..c - 0xf6]));
    }
  }

  lemma SingleShortest(x: Bytes)
    requires x != [] && x[0] < 0x80
    ensures Shortest(x, Str([x[0]]), x[1..])
  {
  }

  /** Of all inputs that decode to a value its encoding is the shortest, and the only one of its length. */
  lemma EncodingIsShortest(x: Bytes, v: Value)
    requires Decode(x) == Parsed(v, [])
    ensures |Encode(v)| <= |x|
    ensures |Encode(v)| == |x| ==> Encode(v) == x
  {
    ParseShortest(x);
    hide Parse, Encode;
    assert x[..|x|] == x;
  }
}

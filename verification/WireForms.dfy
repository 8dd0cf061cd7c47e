/**
 Telegrams and edge responses on the wire, element by element (core/types/rlp_marshal.go,
 core/application/proof/edge_response.go): what stands in the bytes that are written, which bytes
 are accepted, and what is read out of them.
 */
module WireForms {
  import opened Bytes
  import opened FixedBytes
  import opened Rlp
  import T = TelegramCodec
  import E = EdgeResponses

  // ---- numbers ----

  /** A number on the wire: big-endian, without leading zeros. */
  predicate Number(v: Value, n: nat) {
    v.Str? && FromBytes(v.bytes) == n && (v.bytes != [] ==> v.bytes[0] != 0)
  }

  /** Nil is written as zero, and a negative integer without its sign. */
  predicate Integer(v: Value, x: T.BigInt) {
    Number(v, match x case Nil => 0 case Big(n) => if n < 0 then -n else n)
  }

  lemma NumberWritten(n: nat)
    ensures Number(Str(ToBytes(n)), n)
  {
    FromTo(n);
    if n > 0 {
      NoLeadingZero(n);
    }
  }

  lemma UintWritten(n: Uint64)
    ensures Number(T.UintValue(n), n)
  {
    NumberWritten(n);
  }

  lemma IntegerWritten(x: T.BigInt)
    ensures Integer(T.BigValue(x), x)
  {
    NumberWritten(0);
    if x.Big? {
      NumberWritten(T.Abs(x.n));
    }
  }

  // ---- telegrams ----

  /** The elements of an encoded telegram, in order. */
  ghost predicate TelegramElems(t: T.Telegram, es: seq<Value>) {
    && |es| == (if t.kind == 0x7f then 15 else 14)
    && Number(es[0], t.nonce) && Integer(es[1], t.gasPrice) && Number(es[2], t.gas)
    && es[3] == Str(if t.to.Addr? then t.to.a else [])
    && Integer(es[4], t.value) && es[5] == Str(t.input)
    && Integer(es[6], t.v) && Integer(es[7], t.r) && Integer(es[8], t.s)
    && Integer(es[9], t.respV) && Integer(es[10], t.respR) && Integer(es[11], t.respS)
    && es[12] == Str(t.respHash) && es[13] == Str(t.respFrom)
    && (|es| == 15 ==> es[14] == Str(t.from))
  }

  lemma TelegramLayout(t: T.Telegram)
    ensures TelegramElems(t, T.Layout(t))
  {
    hide Number, Integer, T.UintValue, T.BigValue;
    var es := T.Layout(t);
    assert es[0] == T.UintValue(t.nonce) && es[2] == T.UintValue(t.gas);
    assert es[1] == T.BigValue(t.gasPrice) && es[4] == T.BigValue(t.value);
    assert es[6] == T.BigValue(t.v) && es[7] == T.BigValue(t.r) && es[8] == T.BigValue(t.s);
    assert es[9] == T.BigValue(t.respV) && es[10] == T.BigValue(t.respR) && es[11] == T.BigValue(t.respS);
    assert es[3] == (if t.to.Addr? then Str(t.to.a) else Str([])) && es[5] == Str(t.input);
    assert es[12] == Str(t.respHash) && es[13] == Str(t.respFrom);
    assert t.kind == 0x7f ==> es[14] == Str(t.from);
    UintWritten(t.nonce);
    UintWritten(t.gas);
    IntegerWritten(t.gasPrice);
    IntegerWritten(t.value);
    IntegerWritten(t.v);
    IntegerWritten(t.r);
    IntegerWritten(t.s);
    IntegerWritten(t.respV);
    IntegerWritten(t.respR);
    IntegerWritten(t.respS);
    hide T.Layout, T.ToValue;
  }

  /** A telegram on the wire: its type byte unless that is zero, then one list of its fields; of that
      list the hash is taken. */
  lemma TelegramWritten(t: T.Telegram, keccak: Bytes -> Hash)
    requires |T.MarshalRLP(t)| < LIMIT
    ensures var x := T.MarshalRLP(t);
            && x != [] && (t.kind != 0 ==> x[0] == t.kind)
            && var raw := if t.kind == 0 then x else x[1..];
               var p := Decode(raw);
               && p.Parsed? && p.value.List? && TelegramElems(t, p.value.elems)
               && raw == Encode(p.value)
               && T.ComputeHash(t, keccak) == t.(hash := keccak(raw))
  {
    TelegramLayout(t);
    DecodeEncode(List(T.Layout(t)));
    ListFirstByte(T.Layout(t));
    hide TelegramElems, T.Layout, Encode, Decode;
    var e := Encode(List(T.Layout(t)));
    assert t.kind != 0 ==> T.MarshalRLP(t)[1..] == e;
    assert t.kind == 0 ==> T.MarshalRLP(t) == e;
  }

  /** What makes a list of elements a telegram. */
  ghost predicate ReadableTelegram(es: seq<Value>) {
    && (|es| == 9 || |es| >= 14)
    && (forall i | 0 <= i < 9 && i != 3 :: es[i].Str?)
    && |es[0].bytes| <= 8 && |es[2].bytes| <= 8
    && (|es| >= 14 ==> forall i | 9 <= i < 12 :: es[i].Str?)
  }

  /** The telegram that is read out of them, over what was in u. */
  ghost predicate ReadTelegram(t: T.Telegram, u: T.Telegram, es: seq<Value>)
    requires ReadableTelegram(es)
  {
    && t.nonce == FromBytes(es[0].bytes) && t.gasPrice == T.Big(FromBytes(es[1].bytes))
    && t.gas == FromBytes(es[2].bytes)
    && t.to == (if es[3].Str? && |es[3].bytes| == 20 then T.Addr(es[3].bytes) else T.NoAddress)
    && t.value == T.Big(FromBytes(es[4].bytes)) && t.input == es[5].bytes
    && t.v == T.Big(FromBytes(es[6].bytes)) && t.r == T.Big(FromBytes(es[7].bytes))
    && t.s == T.Big(FromBytes(es[8].bytes))
    && (if |es| == 9 then
          && t.respV == u.respV && t.respR == u.respR && t.respS == u.respS
          && t.respHash == u.respHash && t.respFrom == u.respFrom
        else
          && t.respV == T.Big(FromBytes(es[9].bytes)) && t.respR == T.Big(FromBytes(es[10].bytes))
          && t.respS == T.Big(FromBytes(es[11].bytes))
          && t.respHash == Exactly(es[12], 32) && t.respFrom == Exactly(es[13], 20))
    && t.from == (if t.kind != 0x7f then u.from
                  else if |es| > 14 then Exactly(es[14], 20) else ZERO_ADDRESS)
  }

  /** A string of n bytes, or else n zeros. */
  ghost function Exactly(v: Value, n: nat): Bytes {
    if v.Str? && |v.bytes| == n then v.bytes else Zeros(n)
  }

  lemma CallRead(t: T.Telegram, es: seq<Value>)
    requires |es| >= 9
    ensures T.Call(t, es).Ok? <==>
              && (forall i | 0 <= i < 9 && i != 3 :: es[i].Str?)
              && |es[0].bytes| <= 8 && |es[2].bytes| <= 8
    ensures T.Call(t, es).Ok? ==> T.Call(t, es) == T.Ok(t.(
              nonce := FromBytes(es[0].bytes), gasPrice := T.Big(FromBytes(es[1].bytes)),
              gas := FromBytes(es[2].bytes),
              to := if es[3].Str? && |es[3].bytes| == 20 then T.Addr(es[3].bytes) else T.NoAddress,
              value := T.Big(FromBytes(es[4].bytes)), input := es[5].bytes,
              v := T.Big(FromBytes(es[6].bytes)), r := T.Big(FromBytes(es[7].bytes)),
              s := T.Big(FromBytes(es[8].bytes))))
  {
    hide FromBytes;
  }

  lemma ElemsRead(u: T.Telegram, es: seq<Value>, raw: Bytes, keccak: Bytes -> Hash)
    ensures T.FromElems(u, es, raw, keccak).Ok? <==> ReadableTelegram(es)
    ensures var res := T.FromElems(u, es, raw, keccak);
            res.Ok? ==> res.value.kind == u.kind && res.value.hash == keccak(raw) && ReadTelegram(res.value, u, es)
  {
    hide T.Call, FromBytes;
    if |es| == 9 || |es| >= 14 {
      CallRead(u.(hash := keccak(raw)), es);
    }
  }

  /** Which inputs are accepted as telegrams, and what is read out of them; the hash is that of the
      input behind the type byte, also where another encoder would have written it differently. */
  lemma TelegramAcceptedIff(u: T.Telegram, x: Bytes, keccak: Bytes -> Hash)
    ensures var typed := x != [] && x[0] <= 0x7f;
            var raw := if typed then x[1..] else x;
            var p := Decode(raw);
            var res := T.UnmarshalRLP(u, x, keccak);
            && (res.Ok? <==>
                  && (typed ==> x[0] == 0 || x[0] == 0x7f)
                  && p.Parsed? && p.value.List? && ReadableTelegram(p.value.elems))
            && (res.Ok? ==>
                  && res.value.kind == (if typed then x[0] else 0)
                  && res.value.hash == keccak(raw)
                  && ReadTelegram(res.value, u, p.value.elems))
            && var known := typed ==> x[0] == 0 || x[0] == 0x7f;
               && (res == T.Err(T.UnknownType) <==> !known)
               && (res == T.Err(T.Malformed) <==> known && p.Malformed?)
               && (res == T.Err(T.WrongElementCount) <==>
                     known && p.Parsed? && p.value.List? && (|p.value.elems| < 9 || 9 < |p.value.elems| < 14))
  {
    hide ReadableTelegram, ReadTelegram, T.FromElems, Decode;
    var typed := x != [] && x[0] <= 0x7f;
    var raw := if typed then x[1..] else x;
    var u' := u.(kind := if typed then x[0] else 0);
    var p := Decode(raw);
    if p.Parsed? && p.value.List? {
      ElemsRead(u', p.value.elems, raw, keccak);
      ElemsErrors(u', p.value.elems, raw, keccak);
      if ReadableTelegram(p.value.elems) {
        SenderOnly(u', u, p.value.elems);
      }
    }
  }

  lemma ElemsErrors(u: T.Telegram, es: seq<Value>, raw: Bytes, keccak: Bytes -> Hash)
    ensures var res := T.FromElems(u, es, raw, keccak);
            && res != T.Err(T.UnknownType) && res != T.Err(T.Malformed)
            && (res == T.Err(T.WrongElementCount) <==> |es| < 9 || 9 < |es| < 14)
  {
  }

  lemma SenderOnly(u: T.Telegram, w: T.Telegram, es: seq<Value>)
    requires ReadableTelegram(es) && w.(kind := u.kind) == u
    ensures forall t | ReadTelegram(t, u, es) :: ReadTelegram(t, w, es)
  {
  }

  // ---- edge responses ----

  ghost predicate ResponseElems(e: E.EdgeResponse, es: seq<Value>) {
    && |es| == 6
    && es[0] == Str(e.respString)
    && Integer(es[1], e.v) && Integer(es[2], e.r) && Integer(es[3], e.s)
    && es[4] == Str(e.from) && es[5] == Str(e.hash)
  }

  /** A response on the wire: one list of its fields. */
  lemma ResponseWritten(e: E.EdgeResponse)
    requires |E.MarshalRLP(e)| < LIMIT
    ensures var p := Decode(E.MarshalRLP(e));
            && p.Parsed? && p.value.List? && ResponseElems(e, p.value.elems)
            && E.MarshalRLP(e) == Encode(p.value)
  {
    hide Number, Integer, T.BigValue, Encode, Decode;
    IntegerWritten(e.v);
    IntegerWritten(e.r);
    IntegerWritten(e.s);
    DecodeEncode(List(E.Layout(e)));
  }

  /** Which inputs are accepted as responses, and what is read out of them. */
  lemma ResponseAcceptedIff(u: E.EdgeResponse, x: Bytes)
    ensures var p := Decode(x);
            var res := E.UnmarshalRLP(u, x);
            && (res.Ok? <==>
                  && p.Parsed? && p.value.List?
                  && var es := p.value.elems;
                     && (|es| == 4 || |es| >= 6)
                     && forall i | 0 <= i < 4 :: es[i].Str?)
            && (res.Ok? ==>
                  var es, e := p.value.elems, res.value;
                  && e.respString == es[0].bytes && e.v == T.Big(FromBytes(es[1].bytes))
                  && e.r == T.Big(FromBytes(es[2].bytes)) && e.s == T.Big(FromBytes(es[3].bytes))
                  && e.from == (if |es| == 4 then ZERO_ADDRESS else Exactly(es[4], 20))
                  && e.hash == (if |es| >= 6 && es[5].Str? && |es[5].bytes| == 32 then es[5].bytes else u.hash))
            && (res == T.Err(T.Malformed) <==> p.Malformed?)
            && (res == T.Err(T.WrongElementCount) <==>
                  p.Parsed? && p.value.List? && (|p.value.elems| < 4 || |p.value.elems| == 5))
  {
    hide FromBytes, Decode;
  }
}

/**
 Telegrams and their RLP form (core/types/telegram.go, core/types/rlp_marshal.go).

 Field order, the type-byte prefix, null handling and element counts are the repository's; the
 hash function is a parameter.
 */
module TelegramCodec {
  import opened Bytes
  import opened FixedBytes
  import opened Rlp

  /** `*big.Int`. */
  datatype BigInt = Nil | Big(n: int)

  datatype To = NoAddress | Addr(a: Address)

  const LEGACY_TX: Byte := 0x0
  const STATE_TX: Byte := 0x7f
  const RLP_SINGLE_BYTE_UPPER_LIMIT: Byte := 0x7f

  datatype Telegram = Telegram(
    nonce: Uint64, gasPrice: BigInt, gas: Uint64, to: To, value: BigInt, input: Bytes,
    v: BigInt, r: BigInt, s: BigInt, hash: Hash, from: Address,
    respV: BigInt, respR: BigInt, respS: BigInt, respHash: Hash, respFrom: Address, kind: Byte)

  datatype Error = UnknownType | Malformed | WrongElementCount | NotBytes | NotUint64

  datatype Result<T> = Ok(value: T) | Err(error: Error) {
    predicate IsFailure() {
      Err?
    }

    function PropagateFailure<U>(): Result<U>
      requires Err?
    {
      Err(error)
    }

    function Extract(): T
      requires Ok?
    {
      value
    }
  }

  // ---- encoding ----

  function Abs(n: int): nat {
    if n < 0 then -n else n
  }

  /** `big.Int.Bytes`: the absolute value; a nil integer is written as null, like zero. */
  function BigValue(x: BigInt): Value {
    match x
    case Nil => Str([])
    case Big(n) => Str(ToBytes(Abs(n)))
  }

  function UintValue(n: Uint64): Value {
    Str(ToBytes(n))
  }

  function ToValue(to: To): Value {
    match to
    case NoAddress => Str([])
    case Addr(a) => Str(a)
  }

  /** `MarshalRLPWith`. */
  function Layout(t: Telegram): seq<Value> {
    [UintValue(t.nonce), BigValue(t.gasPrice), UintValue(t.gas), ToValue(t.to), BigValue(t.value), Str(t.input),
     BigValue(t.v), BigValue(t.r), BigValue(t.s),
     BigValue(t.respV), BigValue(t.respR), BigValue(t.respS), Str(t.respHash), Str(t.respFrom)]
    + if t.kind == STATE_TX then [Str(t.from)] else []
  }

  function MarshalRLP(t: Telegram): Bytes {
    (if t.kind != LEGACY_TX then [t.kind] else []) + Encode(List(Layout(t)))
  }

  function ComputeHash(t: Telegram, keccak: Bytes -> Hash): Telegram {
    t.(hash := keccak(Encode(List(Layout(t)))))
  }

  // ---- decoding ----

  function GetUint64(v: Value): Result<Uint64> {
    if v.List? then Err(NotBytes)
    else if |v.bytes| > 8 then Err(NotUint64)
    else
      (ValueBound(v.bytes); PowMonotone(|v.bytes|, 8); Pow256Of8();
       Ok(FromBytes(v.bytes)))
  }

  function GetBigInt(v: Value): Result<BigInt> {
    if v.List? then Err(NotBytes) else Ok(Big(FromBytes(v.bytes)))
  }

  function GetBytes(v: Value): Result<Bytes> {
    if v.List? then Err(NotBytes) else Ok(v.bytes)
  }

  /** Fields read without looking at the error: anything but n bytes gives the default. */
  function BytesOr(v: Value, n: nat, default: Bytes): (b: Bytes)
    ensures |default| == n ==> |b| == n
  {
    if v.Str? && |v.bytes| == n then v.bytes else default
  }

  function GetTo(v: Value): To {
    if v.Str? && |v.bytes| == ADDRESS_LENGTH then Addr(BytesToAddress(v.bytes)) else NoAddress
  }

  function TxTypeFromByte(b: Byte): Result<Byte> {
    if b == LEGACY_TX || b == STATE_TX then Ok(b) else Err(UnknownType)
  }

  /** `unmarshalRLPFrom` on the elements of the list; `raw` is what the hash is taken of. Lists of 10
      to 13 elements are outside the model of what the program does and count as malformed. */
  function FromElems(t: Telegram, elems: seq<Value>, raw: Bytes, keccak: Bytes -> Hash): Result<Telegram> {
    if |elems| < 9 || 9 < |elems| < 14 then Err(WrongElementCount)
    else
      var called :- Call(t.(hash := keccak(raw)), elems);
      var t' :- Responses(called, elems);
      Ok(if t.kind == STATE_TX then t'.(from := Sender(elems)) else t')
  }

  /** The call part: the first nine elements. */
  function Call(t: Telegram, elems: seq<Value>): (res: Result<Telegram>)
    requires |elems| >= 9
    ensures res.Ok? ==> res.value.kind == t.kind
  {
    var nonce :- GetUint64(elems[0]);
    var gasPrice :- GetBigInt(elems[1]);
    var gas :- GetUint64(elems[2]);
    var value :- GetBigInt(elems[4]);
    var input :- GetBytes(elems[5]);
    var v :- GetBigInt(elems[6]);
    var r :- GetBigInt(elems[7]);
    var s :- GetBigInt(elems[8]);
    Ok(t.(nonce := nonce, gasPrice := gasPrice, gas := gas, to := GetTo(elems[3]), value := value,
          input := input, v := v, r := r, s := s))
  }

  /** The response part; a list of 9 elements leaves it as it was. */
  function Responses(t: Telegram, elems: seq<Value>): Result<Telegram>
    requires |elems| == 9 || |elems| >= 14
  {
    if |elems| == 9 then Ok(t)
    else
      var v :- GetBigInt(elems[9]);
      var r :- GetBigInt(elems[10]);
      var s :- GetBigInt(elems[11]);
      Ok(t.(respV := v, respR := r, respS := s,
            respHash := BytesOr(elems[12], HASH_LENGTH, ZERO_HASH),
            respFrom := BytesOr(elems[13], ADDRESS_LENGTH, ZERO_ADDRESS)))
  }

  /** The sender of a state telegram. */
  function Sender(elems: seq<Value>): Address {
    if |elems| > 14 then BytesOr(elems[14], ADDRESS_LENGTH, ZERO_ADDRESS) else ZERO_ADDRESS
  }

  /** `UnmarshalRLP` into the telegram t: a first byte of at most 0x7f is the type. */
  function UnmarshalRLP(t: Telegram, input: Bytes, keccak: Bytes -> Hash): Result<Telegram> {
    if input != [] && input[0] <= RLP_SINGLE_BYTE_UPPER_LIMIT then
      var kind :- TxTypeFromByte(input[0]);
      FromInput(t.(kind := kind), input[1..], keccak)
    else FromInput(t.(kind := LEGACY_TX), input, keccak)
  }

  function FromInput(t: Telegram, raw: Bytes, keccak: Bytes -> Hash): Result<Telegram> {
    match Decode(raw)
    case Malformed => Err(Error.Malformed)
    case Parsed(v, _) => if v.Str? then Err(NotBytes) else FromElems(t, v.elems, raw, keccak)
  }

  // ---- what a round trip gives back ----

  function Decoded(x: BigInt): BigInt {
    match x
    case Nil => Big(0)
    case Big(n) => Big(Abs(n))
  }

  /** t as it arrives in a telegram that was r before: integers without sign, the hash newly taken,
      `From` travelling with state telegrams only. */
  function Arrived(t: Telegram, r: Telegram, keccak: Bytes -> Hash): Telegram {
    t.(gasPrice := Decoded(t.gasPrice), value := Decoded(t.value),
       v := Decoded(t.v), r := Decoded(t.r), s := Decoded(t.s),
       respV := Decoded(t.respV), respR := Decoded(t.respR), respS := Decoded(t.respS),
       hash := keccak(Encode(List(Layout(t)))),
       from := if t.kind == STATE_TX then t.from else r.from)
  }

  lemma BigRoundTrip(x: BigInt)
    ensures GetBigInt(BigValue(x)) == Ok(Decoded(x))
    ensures BigValue(Decoded(x)) == BigValue(x)
  {
    match x
    case Nil => assert FromBytes([]) == 0;
    case Big(n) => FromTo(Abs(n));
  }

  lemma UintRoundTrip(n: Uint64)
    ensures GetUint64(UintValue(n)) == Ok(n)
  {
    Uint64Size(n);
    FromTo(n);
  }

  lemma ElemsRoundTrip(t: Telegram, r: Telegram, raw: Bytes, keccak: Bytes -> Hash)
    requires r.kind == t.kind && raw == Encode(List(Layout(t)))
    ensures FromElems(r, Layout(t), raw, keccak) == Ok(Arrived(t, r, keccak))
  {
    hide GetUint64, GetBigInt, BigValue, UintValue, Encode, Decoded;
    UintRoundTrip(t.nonce);
    UintRoundTrip(t.gas);
    BigRoundTrip(t.gasPrice);
    BigRoundTrip(t.value);
    BigRoundTrip(t.v);
    BigRoundTrip(t.r);
    BigRoundTrip(t.s);
    BigRoundTrip(t.respV);
    BigRoundTrip(t.respR);
    BigRoundTrip(t.respS);
  }

  /** Round trip of legacy and state telegrams into any receiver; the hash law is its second half:
      hashing the result again gives the hash taken while decoding. */
  lemma TelegramRoundTrip(t: Telegram, r: Telegram, keccak: Bytes -> Hash)
    requires t.kind == LEGACY_TX || t.kind == STATE_TX
    requires |MarshalRLP(t)| < LIMIT
    ensures var t' := Arrived(t, r, keccak);
            && UnmarshalRLP(r, MarshalRLP(t), keccak) == Ok(t')
            && ComputeHash(t', keccak) == t'
  {
    hide Encode, FromElems, Layout;
    var raw := Encode(List(Layout(t)));
    var input := MarshalRLP(t);
    ListFirstByte(Layout(t));
    DecodeEncode(List(Layout(t)));
    ElemsRoundTrip(t, r.(kind := t.kind), raw, keccak);
    if t.kind == STATE_TX {
      assert input[0] == STATE_TX && input[1..] == raw;
    } else {
      assert input == raw;
    }
    LayoutOfArrived(t, r, keccak);
  }

  lemma LayoutOfArrived(t: Telegram, r: Telegram, keccak: Bytes -> Hash)
    ensures Layout(Arrived(t, r, keccak)) == Layout(t)
  {
    hide BigValue, Encode, Decoded;
    BigRoundTrip(t.gasPrice);
    BigRoundTrip(t.value);
    BigRoundTrip(t.v);
    BigRoundTrip(t.r);
    BigRoundTrip(t.s);
    BigRoundTrip(t.respV);
    BigRoundTrip(t.respR);
    BigRoundTrip(t.respS);
  }

  /** The integers of a telegram that its encoding keeps as they are. */
  predicate Plain(x: BigInt) {
    x.Big? && x.n >= 0
  }

  predicate PlainIntegers(t: Telegram) {
    && Plain(t.gasPrice) && Plain(t.value) && Plain(t.v) && Plain(t.r) && Plain(t.s)
    && Plain(t.respV) && Plain(t.respR) && Plain(t.respS)
  }

  /** Decoding gives the very telegram back exactly when its integers are neither nil nor negative,
      its hash is current, and a legacy telegram's sender is the receiver's. */
  lemma RoundTripExactIff(t: Telegram, r: Telegram, keccak: Bytes -> Hash)
    requires t.kind == LEGACY_TX || t.kind == STATE_TX
    requires |MarshalRLP(t)| < LIMIT
    ensures UnmarshalRLP(r, MarshalRLP(t), keccak) == Ok(t) <==>
            && PlainIntegers(t)
            && t == ComputeHash(t, keccak)
            && (t.kind == LEGACY_TX ==> t.from == r.from)
  {
    hide Encode, Layout, UnmarshalRLP, MarshalRLP;
    TelegramRoundTrip(t, r, keccak);
  }

  /** A telegram of any other type whose byte could be a prefix is not decoded. */
  lemma OtherTypesRejected(t: Telegram, r: Telegram, keccak: Bytes -> Hash)
    requires LEGACY_TX < t.kind < STATE_TX
    ensures UnmarshalRLP(r, MarshalRLP(t), keccak) == Err(UnknownType)
  {
  }

  /** A legacy telegram is also accepted with its type byte written out. */
  lemma ExplicitLegacyAccepted(t: Telegram, r: Telegram, keccak: Bytes -> Hash)
    requires t.kind == LEGACY_TX && |MarshalRLP(t)| < LIMIT
    ensures UnmarshalRLP(r, [LEGACY_TX] + MarshalRLP(t), keccak) == UnmarshalRLP(r, MarshalRLP(t), keccak)
  {
    hide Encode, FromInput, Layout;
    ListFirstByte(Layout(t));
    assert MarshalRLP(t) == Encode(List(Layout(t)));
    assert ([LEGACY_TX] + MarshalRLP(t))[1..] == MarshalRLP(t);
  }
}

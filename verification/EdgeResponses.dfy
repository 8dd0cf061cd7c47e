/**
 Edge responses: their RLP form and what is hashed for a signature
 (core/application/proof/edge_response.go, core/application/proof/app_signer.go:36-60).
 */
module EdgeResponses {
  import opened Bytes
  import opened FixedBytes
  import opened Rlp
  import opened TelegramCodec

  datatype EdgeResponse = EdgeResponse(respString: Bytes, v: BigInt, r: BigInt, s: BigInt, from: Address, hash: Hash)

  /** `Copy` copies the magnitudes of R and S. */
  function Copy(e: EdgeResponse): EdgeResponse {
    e.(r := Magnitude(e.r), s := Magnitude(e.s))
  }

  function Magnitude(x: BigInt): BigInt {
    if x.Nil? then Nil else Big(Abs(x.n))
  }

  /** `MarshalRLPWith`; an empty string is written as null, which encodes alike. */
  function Layout(e: EdgeResponse): seq<Value> {
    [Str(e.respString), BigValue(e.v), BigValue(e.r), BigValue(e.s), Str(e.from), Str(e.hash)]
  }

  function MarshalRLP(e: EdgeResponse): Bytes {
    Encode(List(Layout(e)))
  }

  /** `UnmarshalRLP` into e. A hash of another size leaves the old one. A list of exactly 5 elements is
      outside the model of what the program does and counts as malformed. */
  function UnmarshalRLP(e: EdgeResponse, input: Bytes): Result<EdgeResponse> {
    match Decode(input)
    case Malformed => Err(Error.Malformed)
    case Parsed(value, _) => if value.Str? then Err(NotBytes) else FromElems(e, value.elems)
  }

  function FromElems(e: EdgeResponse, elems: seq<Value>): Result<EdgeResponse> {
    if |elems| < 4 || |elems| == 5 then Err(WrongElementCount)
    else
      var respString :- GetBytes(elems[0]);
      var v :- GetBigInt(elems[1]);
      var r :- GetBigInt(elems[2]);
      var s :- GetBigInt(elems[3]);
      var e' := e.(respString := respString, v := v, r := r, s := s, from := ZERO_ADDRESS);
      Ok(if |elems| == 4 then e'
         else e'.(from := BytesOr(elems[4], ADDRESS_LENGTH, ZERO_ADDRESS),
                  hash := BytesOr(elems[5], HASH_LENGTH, e.hash)))
  }

  /** Every response comes back, whatever its length, with the integers' signs dropped; so exactly
      the responses with plain integers come back as they were. */
  lemma ResponseRoundTrip(e: EdgeResponse, receiver: EdgeResponse)
    requires |MarshalRLP(e)| < LIMIT
    ensures UnmarshalRLP(receiver, MarshalRLP(e)) == Ok(e.(v := Decoded(e.v), r := Decoded(e.r), s := Decoded(e.s)))
    ensures UnmarshalRLP(receiver, MarshalRLP(e)) == Ok(e) <==> Plain(e.v) && Plain(e.r) && Plain(e.s)
  {
    hide Encode, BigValue, GetBigInt;
    DecodeEncode(List(Layout(e)));
    BigRoundTrip(e.v);
    BigRoundTrip(e.r);
    BigRoundTrip(e.s);
  }

  /** The value whose encoding is hashed: EIP-155 adds the chain ID and two zeros. */
  function Preimage(respString: Bytes, chainID: Uint64): Value {
    List([Str(respString)] + if chainID != 0 then [UintValue(chainID), UintValue(0), UintValue(0)] else [])
  }

  /** Equal preimages come from equal strings on equal chains, chain 0 and the empty string included. */
  lemma PreimageInjective(a: Bytes, m: Uint64, b: Bytes, n: Uint64)
    requires |Encode(Preimage(a, m))| < LIMIT
    requires Encode(Preimage(a, m)) == Encode(Preimage(b, n))
    ensures a == b && m == n
  {
    hide Encode, UintValue;
    EncodeInjective(Preimage(a, m), Preimage(b, n));
    assert Preimage(a, m).elems[0] == Preimage(b, n).elems[0];
    if m != 0 {
      assert Preimage(a, m).elems[1] == Preimage(b, n).elems[1];
      UintRoundTrip(m);
      UintRoundTrip(n);
    }
  }
}

/**
 The EIP-155 signer of edge responses (core/application/proof/app_signer.go,
 core/crypto/crypto.go:57-81, 138-186).

 Keccak and secp256k1 are functions of which `SignsWell` says what is needed: the header byte and
 the range of a compact signature (low s as in EIP-2), and that recovery undoes signing.
 */
module Signer {
  import opened Bytes
  import opened FixedBytes
  import opened Rlp
  import opened TelegramCodec
  import opened EdgeResponses

  const SECP256K1_N := 0xfffffffffffffffffffffffffffffffebaaedce6af48a03bbfd25e8cd0364141

  datatype Maybe<T> = None | Some(value: T)

  datatype Curve<!Key, !Pub> = Curve(
    signCompact: (Key, Bytes) -> Maybe<Bytes>,
    recoverCompact: (Bytes, Bytes) -> Maybe<Pub>,
    publicKey: Key -> Pub,
    marshal: Pub -> Bytes,
    keccak: Bytes -> Hash)

  datatype Answer<T> = Good(value: T) | Bad

  // ---- core/crypto ----

  predicate ValidateSignatureValues(v: int, r: BigInt, s: BigInt, homestead: bool) {
    && r.Big? && s.Big?
    && r.n >= 1 && s.n >= 1
    && 0 <= v <= 1
    && r.n < SECP256K1_N
    && (if homestead then s.n <= SECP256K1_N / 2 else s.n < SECP256K1_N)
  }

  /** `Sign`: the header byte of the compact signature becomes a parity byte at the end. */
  function Sign<Key, Pub>(c: Curve<Key, Pub>, key: Key, hash: Bytes): Answer<Bytes> {
    match c.signCompact(key, hash)
    case None => Bad
    case Some(sig) =>
      if sig == [] then Bad
      else Good((sig + [if sig[0] == 28 then 1 else 0])[1..])
  }

  /** `RecoverPubkey` moves it back. */
  function RecoverPubkey<Key, Pub>(c: Curve<Key, Pub>, sig: Bytes, hash: Bytes): Answer<Pub> {
    if sig == [] then Bad
    else
      var term := if sig[|sig| - 1] == 1 then 28 else 27;
      match c.recoverCompact([term] + sig[..|sig| - 1], hash)
      case None => Bad
      case Some(pub) => Good(pub)
  }

  function PubKeyToAddress<Key, Pub>(c: Curve<Key, Pub>, pub: Pub): Address {
    var m := c.marshal(pub);
    BytesToAddress(c.keccak(if m == [] then [] else m[1..])[12..])
  }

  // ---- the signer ----

  /** Go's conversion of an unsigned integer to int64. */
  function Int64(n: Uint64): int {
    if n < 0x8000_0000_0000_0000 then n else n - 0x1_0000_0000_0000_0000
  }

  function CalculateV(networkID: Uint64, parity: Byte): Bytes {
    ToBytes(Abs(parity + 35 + 2 * Int64(networkID)))
  }

  /** `Provider`'s first half: the parity that V stands for on this network. */
  function Unwind(networkID: Uint64, v: BigInt): int {
    (if v.Nil? then 0 else Abs(v.n)) - 2 * Int64(networkID) - 35
  }

  /** `encodeSignature`: R and S right-aligned in 32 bytes each, then the parity. */
  function EncodeSignature(r: BigInt, s: BigInt, v: int, homestead: bool): Answer<Bytes> {
    if !ValidateSignatureValues(v, r, s, homestead) then Bad
    else Good(Fixed(ToBytes(r.n), 32) + Fixed(ToBytes(s.n), 32) + [v])
  }

  function HashOf<Key, Pub>(c: Curve<Key, Pub>, networkID: Uint64, e: EdgeResponse): Hash {
    BytesToHash(c.keccak(Encode(Preimage(e.respString, networkID))))
  }

  function Provider<Key, Pub>(
    c: Curve<Key, Pub>, networkID: Uint64, homestead: bool, e: EdgeResponse): Answer<Address>
  {
    match EncodeSignature(e.r, e.s, Unwind(networkID, e.v), homestead)
    case Bad => Bad
    case Good(sig) =>
      match RecoverPubkey(c, sig, HashOf(c, networkID, e))
      case Bad => Bad
      case Good(pub) => Good(PubKeyToAddress(c, pub))
  }

  function SignEdgeResp<Key, Pub>(
    c: Curve<Key, Pub>, networkID: Uint64, e: EdgeResponse, key: Key): Answer<EdgeResponse>
  {
    var e' := Copy(e);
    match Sign(c, key, HashOf(c, networkID, e'))
    case Bad => Bad
    case Good(sig) =>
      if |sig| < 65 then Bad
      else Good(e'.(r := Big(FromBytes(sig[..32])), s := Big(FromBytes(sig[32..64])),
                    v := Big(FromBytes(CalculateV(networkID, sig[64])))))
  }

  // ---- V ----

  lemma VValue(networkID: Uint64, parity: Byte)
    ensures FromBytes(CalculateV(networkID, parity)) == Abs(parity + 35 + 2 * Int64(networkID))
  {
    FromTo(Abs(parity + 35 + 2 * Int64(networkID)));
  }

  /** The network IDs on which V keeps its sign: all below 2^63, and the 17 or 18 greatest. */
  predicate KeepsSign(networkID: Uint64, parity: Byte) {
    parity + 35 + 2 * Int64(networkID) >= 0
  }

  /** V unwinds to the parity it was made from exactly there; elsewhere to a value out of range. */
  lemma UnwindsIff(networkID: Uint64, parity: Byte)
    requires parity <= 1
    ensures var u := Unwind(networkID, Big(FromBytes(CalculateV(networkID, parity))));
            if KeepsSign(networkID, parity) then u == parity else u > 1
  {
    VValue(networkID, parity);
  }

  /** Below 2^63, V tells network and parity. */
  lemma VInjective(n: Uint64, p: Byte, m: Uint64, q: Byte)
    requires n < 0x8000_0000_0000_0000 && m < 0x8000_0000_0000_0000 && p <= 1 && q <= 1
    requires CalculateV(n, p) == CalculateV(m, q)
    ensures n == m && p == q
  {
    VValue(n, p);
    VValue(m, q);
  }

  /** V made for one network is in range on a network exactly when that is the same one; where V has lost
      its sign, exactly on the network whose ID, as a signed integer, mirrors its own. */
  lemma InRangeIff(n: Uint64, p: Byte, m: Uint64)
    requires p <= 1
    ensures 0 <= Unwind(m, Big(FromBytes(CalculateV(n, p)))) <= 1 <==>
            if KeepsSign(n, p) then n == m else Int64(n) + Int64(m) == -35 - p
  {
    VValue(n, p);
  }

  /** A response signed where V keeps its sign is refused on every other network. */
  lemma OtherNetworkRejects<Key, Pub>(
    c: Curve<Key, Pub>, n: Uint64, p: Byte, m: Uint64, homestead: bool, e: EdgeResponse)
    requires KeepsSign(n, p) && p <= 1 && n != m
    requires e.v == Big(FromBytes(CalculateV(n, p)))
    ensures !(0 <= Unwind(m, e.v) <= 1)
    ensures Provider(c, m, homestead, e) == Bad
  {
    InRangeIff(n, p, m);
  }

  /** Where it does not, another network can take V for its own. */
  lemma OtherNetworkInRange()
    ensures !KeepsSign(0xffff_ffff_ffff_ff9c, 0)
    ensures Unwind(65, Big(FromBytes(CalculateV(0xffff_ffff_ffff_ff9c, 0)))) == 0
  {
    VValue(0xffff_ffff_ffff_ff9c, 0);
  }

  // ---- byte layout ----

  /** A signature's bytes come back from its two numbers. */
  lemma LayoutRestored(r: Bytes, s: Bytes, parity: Byte, homestead: bool)
    requires |r| == 32 && |s| == 32
    requires ValidateSignatureValues(parity, Big(FromBytes(r)), Big(FromBytes(s)), homestead)
    ensures EncodeSignature(Big(FromBytes(r)), Big(FromBytes(s)), parity, homestead) == Good(r + s + [parity])
  {
    PadRestores(r);
    PadRestores(s);
    FixedPads(r);
    FixedPads(s);
  }

  lemma FixedPads(b: Bytes)
    requires |b| == 32 && |ToBytes(FromBytes(b))| <= 32
    requires Zeros(|b| - |ToBytes(FromBytes(b))|) + ToBytes(FromBytes(b)) == b
    ensures Fixed(ToBytes(FromBytes(b)), 32) == b
  {
    var m := ToBytes(FromBytes(b));
    assert m[|m| - |m|..] == m;
  }

  // ---- end to end ----

  /** What is assumed of the curve for one key and one message: the size and the header byte of a
      signature, numbers that are valid under the rules in force, and recovery of the key. */
  ghost predicate SignsWell<Key, Pub>(c: Curve<Key, Pub>, key: Key, hash: Bytes, homestead: bool) {
    var sig := c.signCompact(key, hash);
    sig.Some? ==>
      && |sig.value| == 65
      && (sig.value[0] == 27 || sig.value[0] == 28)
      && ValidateSignatureValues(
           sig.value[0] - 27, Big(FromBytes(sig.value[1..33])), Big(FromBytes(sig.value[33..65])), homestead)
      && c.recoverCompact(sig.value, hash) == Some(c.publicKey(key))
  }

  /** Signing and recovering with the header byte moved there and back. */
  lemma RecoverUndoesSign<Key, Pub>(c: Curve<Key, Pub>, key: Key, hash: Bytes, homestead: bool)
    requires SignsWell(c, key, hash, homestead) && Sign(c, key, hash).Good?
    ensures var sig := Sign(c, key, hash).value;
            && |sig| == 65 && sig[64] == c.signCompact(key, hash).value[0] - 27 <= 1
            && sig[..32] == c.signCompact(key, hash).value[1..33]
            && sig[32..64] == c.signCompact(key, hash).value[33..65]
            && RecoverPubkey(c, sig, hash) == Good(c.publicKey(key))
  {
    var compact := c.signCompact(key, hash).value;
    var sig := Sign(c, key, hash).value;
    assert sig == compact[1..] + [sig[64]];
    assert [compact[0]] + sig[..64] == compact;
  }

  /** The provider of a signed response is the signer's address exactly when V keeps its sign, in
      particular for every network ID below 2^63; otherwise the response is refused. */
  lemma ProviderIsSigner<Key, Pub>(c: Curve<Key, Pub>, networkID: Uint64, homestead: bool, e: EdgeResponse, key: Key)
    requires SignsWell(c, key, HashOf(c, networkID, e), homestead)
    requires SignEdgeResp(c, networkID, e, key).Good?
    ensures var signed := SignEdgeResp(c, networkID, e, key).value;
            var parity := Sign(c, key, HashOf(c, networkID, e)).value[64];
            && Provider(c, networkID, homestead, signed) ==
                 (if KeepsSign(networkID, parity) then Good(PubKeyToAddress(c, c.publicKey(key))) else Bad)
            && (networkID < 0x8000_0000_0000_0000 ==> KeepsSign(networkID, parity))
  {
    hide Encode, CalculateV, PubKeyToAddress, Fixed;
    var hash := HashOf(c, networkID, e);
    var signed := SignEdgeResp(c, networkID, e, key).value;
    assert HashOf(c, networkID, Copy(e)) == hash && HashOf(c, networkID, signed) == hash;
    RecoverUndoesSign(c, key, hash, homestead);
    var sig := Sign(c, key, hash).value;
    UnwindsIff(networkID, sig[64]);
    if KeepsSign(networkID, sig[64]) {
      LayoutRestored(sig[..32], sig[32..64], sig[64], homestead);
      assert sig == sig[..32] + sig[32..64] + [sig[64]];
    }
  }

  // ---- what is signed ----

  /** The signed bytes: text and chain ID, the latter followed by two empty strings. */
  lemma HashIs<Key, Pub>(c: Curve<Key, Pub>, networkID: Uint64, e: EdgeResponse)
    ensures networkID == 0 ==> HashOf(c, networkID, e) == c.keccak(Encode(List([Str(e.respString)])))
    ensures networkID != 0 ==>
              HashOf(c, networkID, e) ==
              c.keccak(Encode(List([Str(e.respString), Str(ToBytes(networkID)), Str([]), Str([])])))
  {
    assert [Str(e.respString)] + [] == [Str(e.respString)];
    assert Preimage(e.respString, networkID).elems ==
      if networkID == 0 then [Str(e.respString)] else [Str(e.respString), Str(ToBytes(networkID)), Str([]), Str([])];
    hide Encode, Preimage;
  }

  /** Whatever distinguishes text or chain shows in the hash under some hash function: no part of
      either is left out of what is signed. (No injective one exists to ask for all.) */
  lemma HashTells<Key, Pub>(c: Curve<Key, Pub>, m: Uint64, a: EdgeResponse, n: Uint64, b: EdgeResponse)
    requires |Encode(Preimage(a.respString, m))| < LIMIT
    requires a.respString != b.respString || m != n
    ensures exists k: Bytes -> Hash :: HashOf(c.(keccak := k), m, a) != HashOf(c.(keccak := k), n, b)
  {
    var x := Encode(Preimage(a.respString, m));
    if x == Encode(Preimage(b.respString, n)) {
      PreimageInjective(a.respString, m, b.respString, n);
      assert false;
    }
    hide Encode, Preimage;
    var k: Bytes -> Hash := y => if y == x then Zeros(31) + [1] else ZERO_HASH;
    assert HashOf(c.(keccak := k), m, a)[31] == 1;
    assert HashOf(c.(keccak := k), n, b)[31] == 0;
  }

  /** Signing fails only without a signature of 65 bytes. */
  lemma SignsIff<Key, Pub>(c: Curve<Key, Pub>, networkID: Uint64, e: EdgeResponse, key: Key)
    ensures var sig := c.signCompact(key, HashOf(c, networkID, e));
            SignEdgeResp(c, networkID, e, key).Good? <==> sig.Some? && |sig.value| >= 65
  {
    assert HashOf(c, networkID, Copy(e)) == HashOf(c, networkID, e);
    hide HashOf, CalculateV, FromBytes;
  }

  /** Signing fills in V, R and S and keeps everything else. */
  lemma SignedIs<Key, Pub>(
    c: Curve<Key, Pub>, networkID: Uint64, homestead: bool, e: EdgeResponse, key: Key, compact: Bytes)
    requires c.signCompact(key, HashOf(c, networkID, e)) == Some(compact)
    requires SignsWell(c, key, HashOf(c, networkID, e), homestead)
    ensures var n := if networkID < 0x8000_0000_0000_0000 then networkID else networkID - 0x1_0000_0000_0000_0000;
            var v := 8 + compact[0] + 2 * n;
            SignEdgeResp(c, networkID, e, key) == Good(e.(
              v := Big(if v < 0 then -v else v),
              r := Big(FromBytes(compact[1..33])),
              s := Big(FromBytes(compact[33..65]))))
  {
    hide Encode, ToBytes, FromBytes;
    var hash := HashOf(c, networkID, e);
    assert HashOf(c, networkID, Copy(e)) == hash;
    RecoverUndoesSign(c, key, hash, homestead);
    VValue(networkID, Sign(c, key, hash).value[64]);
  }

  /** What makes a provider: R and S in range, V unwinding to a parity, and a key recovered from
      them and the hash of the response's own text. */
  lemma ProviderIs<Key, Pub>(
    c: Curve<Key, Pub>, networkID: Uint64, homestead: bool, e: EdgeResponse, r: Bytes, s: Bytes, a: Address)
    requires |r| == 32 && |s| == 32 && e.r == Big(FromBytes(r)) && e.s == Big(FromBytes(s))
    ensures var n := if networkID < 0x8000_0000_0000_0000 then networkID else networkID - 0x1_0000_0000_0000_0000;
            var u := (if e.v.Nil? then 0 else if e.v.n < 0 then -e.v.n else e.v.n) - 2 * n - 35;
            Provider(c, networkID, homestead, e) == Good(a) <==>
              && (u == 0 || u == 1)
              && 1 <= e.r.n < SECP256K1_N && 1 <= e.s.n < SECP256K1_N
              && (homestead ==> 2 * e.s.n < SECP256K1_N)
              && exists pub ::
                   && c.recoverCompact([27 + u] + r + s, HashOf(c, networkID, e)) == Some(pub)
                   && PubKeyToAddress(c, pub) == a
  {
    hide HashOf, PubKeyToAddress, Provider, FromBytes;
    ProviderOfParity(c, networkID, homestead, e, r, s, Unwind(networkID, e.v), a);
  }

  lemma ProviderOfParity<Key, Pub>(
    c: Curve<Key, Pub>, networkID: Uint64, homestead: bool, e: EdgeResponse, r: Bytes, s: Bytes, u: int, a: Address)
    requires |r| == 32 && |s| == 32 && e.r == Big(FromBytes(r)) && e.s == Big(FromBytes(s))
    requires u == Unwind(networkID, e.v)
    ensures Provider(c, networkID, homestead, e) == Good(a) <==>
              && ValidateSignatureValues(u, e.r, e.s, homestead)
              && exists pub ::
                   && c.recoverCompact([27 + u] + r + s, HashOf(c, networkID, e)) == Some(pub)
                   && PubKeyToAddress(c, pub) == a
  {
    hide HashOf, PubKeyToAddress, ToBytes, FromBytes, Fixed, Unwind, Int64;
    if ValidateSignatureValues(u, e.r, e.s, homestead) {
      LayoutRestored(r, s, u, homestead);
      var sig := r + s + [u];
      assert sig[..|sig| - 1] == r + s;
      assert [27 + u] + (r + s) == [27 + u] + r + s;
    }
  }

  /** Under homestead rules exactly one of s and its negative is valid, the lower one; before, both. */
  lemma LowS(v: int, r: int, s: int)
    requires 0 <= v <= 1 && 1 <= r < SECP256K1_N && 1 <= s < SECP256K1_N
    ensures ValidateSignatureValues(v, Big(r), Big(s), true) <==> s < SECP256K1_N - s
    ensures ValidateSignatureValues(v, Big(r), Big(s), true)
            <==> !ValidateSignatureValues(v, Big(r), Big(SECP256K1_N - s), true)
    ensures ValidateSignatureValues(v, Big(r), Big(s), false)
    ensures SECP256K1_N == Pow256(32) - 0x1_4551_2319_50b7_5fc4_402d_a173_2fc9_bebf
  {
    Pow256Of32();
  }

  /** The address of a key in its uncompressed form: one prefix byte, then the two coordinates. */
  lemma AddressIs<Key, Pub>(c: Curve<Key, Pub>, pub: Pub, prefix: Byte, coordinates: Bytes)
    requires c.marshal(pub) == [prefix] + coordinates
    ensures c.keccak(coordinates) == c.keccak(coordinates)[..12] + PubKeyToAddress(c, pub)
  {
    assert c.marshal(pub)[1..] == coordinates;
  }

  /** `encodeSignature` with its buffer. */
  method FillSignature(r: BigInt, s: BigInt, v: int, homestead: bool) returns (ok: bool, sig: array<Byte>)
    ensures fresh(sig)
    ensures match EncodeSignature(r, s, v, homestead)
            case Good(b) => ok && sig[..] == b
            case Bad => !ok
  {
    if !ValidateSignatureValues(v, r, s, homestead) {
      sig := new Byte[0];
      return false, sig;
    }
    sig := new Byte[65](_ => 0);
    var rb, sb := ToBytes(r.n), ToBytes(s.n);
    ScalarSize(r.n);
    ScalarSize(s.n);
    forall i | 0 <= i < |rb| {
      sig[32 - |rb| + i] := rb[i];
    }
    forall i | 0 <= i < |sb| {
      sig[64 - |sb| + i] := sb[i];
    }
    sig[64] := v;
    ok := true;
    assert sig[..] == Fixed(rb, 32) + Fixed(sb, 32) + [v];
  }

  lemma ScalarSize(n: nat)
    requires n < SECP256K1_N
    ensures |ToBytes(n)| <= 32
  {
    Pow256Of32();
    SizeOf(n, 32);
  }

  lemma Pow256Of32()
    ensures Pow256(32) == SECP256K1_N + 0x1_4551_2319_50b7_5fc4_402d_a173_2fc9_bebf
  {
    Pow256Of8();
    Pow256Sum(8, 8);
    Pow256Sum(16, 16);
  }

  lemma {:induction false} Pow256Sum(j: nat, k: nat)
    ensures Pow256(j + k) == Pow256(j) * Pow256(k)
    decreases j
  {
    if j > 0 {
      Pow256Sum(j - 1, k);
      assert Pow256(j) * Pow256(k) == 256 * (Pow256(j - 1) * Pow256(k));
    }
  }
}

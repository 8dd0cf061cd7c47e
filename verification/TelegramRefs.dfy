/** Decoding a telegram in place, field after field (core/types/telegram.go:154-291). */
module TelegramRefs {
  import opened Bytes
  import opened FixedBytes
  import opened Rlp
  import opened TelegramCodec

  /** Whether element i of the list is read without an error. */
  predicate Reads(i: nat, v: Value) {
    if i == 0 || i == 2 then GetUint64(v).Ok?
    else i == 3 || i >= 12 || v.Str?
  }

  /** The first element that is not, or the length of the list. */
  function FirstUnread(elems: seq<Value>, i: nat): (n: nat)
    requires i <= |elems|
    ensures i <= n <= |elems| && (n < |elems| ==> !Reads(n, elems[n]))
    ensures forall j | i <= j < n :: Reads(j, elems[j])
    decreases |elems| - i
  {
    if i == |elems| || !Reads(i, elems[i]) then i else FirstUnread(elems, i + 1)
  }

  function BigOf(v: Value): BigInt {
    if v.Str? then Big(FromBytes(v.bytes)) else Big(0)
  }

  /** The telegram with the field of element i read from v. */
  function With(t: Telegram, i: nat, v: Value): Telegram
    requires Reads(i, v)
  {
    match i
    case 0 => t.(nonce := GetUint64(v).value)
    case 1 => t.(gasPrice := BigOf(v))
    case 2 => t.(gas := GetUint64(v).value)
    case 3 => t.(to := GetTo(v))
    case 4 => t.(value := BigOf(v))
    case 5 => t.(input := v.bytes)
    case 6 => t.(v := BigOf(v))
    case 7 => t.(r := BigOf(v))
    case 8 => t.(s := BigOf(v))
    case 9 => t.(respV := BigOf(v))
    case 10 => t.(respR := BigOf(v))
    case 11 => t.(respS := BigOf(v))
    case 12 => t.(respHash := BytesOr(v, HASH_LENGTH, ZERO_HASH))
    case 13 => t.(respFrom := BytesOr(v, ADDRESS_LENGTH, ZERO_ADDRESS))
    case _ => t
  }

  /** The telegram with the fields of the first n elements. */
  function Filled(t: Telegram, elems: seq<Value>, n: nat): Telegram
    requires n <= |elems| && forall j | 0 <= j < n :: Reads(j, elems[j])
    decreases n
  {
    if n == 0 then t else With(Filled(t, elems, n - 1), n - 1, elems[n - 1])
  }

  lemma FilledNone(t: Telegram, elems: seq<Value>)
    ensures Filled(t, elems, 0) == t
  {
  }

  lemma FilledNext(t: Telegram, elems: seq<Value>, i: nat)
    requires i < |elems| && forall j | 0 <= j <= i :: Reads(j, elems[j])
    ensures Filled(t, elems, i + 1) == With(Filled(t, elems, i), i, elems[i])
  {
  }

  function ErrorOf(i: nat, v: Value): Error
    requires !Reads(i, v)
  {
    if i == 0 || i == 2 then GetUint64(v).error else NotBytes
  }

  lemma CallIsFilled(t: Telegram, elems: seq<Value>)
    requires |elems| >= 9
    ensures var n := FirstUnread(elems, 0);
            Call(t, elems) == if n >= 9 then Ok(Filled(t, elems, 9)) else Err(ErrorOf(n, elems[n]))
  {
    hide FromBytes, GetTo, FirstUnread;
    var n := FirstUnread(elems, 0);
    if n >= 9 {
      NineFilled(t, elems);
    }
  }

  lemma NineFilled(t: Telegram, elems: seq<Value>)
    requires |elems| >= 9 && forall j | 0 <= j < 9 :: Reads(j, elems[j])
    ensures Call(t, elems) == Ok(Filled(t, elems, 9))
  {
    hide FromBytes, GetTo;
    assert Reads(0, elems[0]) && Reads(1, elems[1]) && Reads(2, elems[2]) && Reads(4, elems[4]) && Reads(5, elems[5]);
    assert Reads(6, elems[6]) && Reads(7, elems[7]) && Reads(8, elems[8]);
    assert Filled(t, elems, 3) ==
           t.(nonce := GetUint64(elems[0]).value, gasPrice := BigOf(elems[1]), gas := GetUint64(elems[2]).value);
    assert Filled(t, elems, 6) ==
           Filled(t, elems, 3).(to := GetTo(elems[3]), value := BigOf(elems[4]), input := elems[5].bytes);
  }

  /** f with the field of element i lost: a new integer is zero, of the others nothing is said. */
  ghost predicate Lost(f: Telegram, i: nat, t: Telegram) {
    match i
    case 0 => t == f.(nonce := t.nonce)
    case 1 => t == f.(gasPrice := Big(0))
    case 2 => t == f.(gas := t.gas)
    case 4 => t == f.(value := Big(0))
    case 5 => t == f.(input := t.input)
    case 6 => t == f.(v := Big(0))
    case 7 => t == f.(r := Big(0))
    case 8 => t == f.(s := Big(0))
    case 9 => t == f.(respV := Big(0))
    case 10 => t == f.(respR := Big(0))
    case 11 => t == f.(respS := Big(0))
    case _ => false
  }

  /** What a failed decoding of a list leaves: the hash and every field before the element that could
      not be read are new, every field after it is old. */
  ghost predicate Abandoned(before: Telegram, elems: seq<Value>, raw: Bytes, keccak: Bytes -> Hash, after: Telegram) {
    if |elems| < 9 || 9 < |elems| < 14 then after == before
    else Stopped(before.(hash := keccak(raw)), elems, after)
  }

  ghost predicate Stopped(start: Telegram, elems: seq<Value>, after: Telegram) {
    var n := FirstUnread(elems, 0);
    n < |elems| && Lost(Filled(start, elems, n), n, after)
  }

  /** What a failed decoding leaves; an unknown type byte is kept, though it is refused. */
  ghost predicate Failed(before: Telegram, input: Bytes, keccak: Bytes -> Hash, after: Telegram) {
    var typed := input != [] && input[0] <= RLP_SINGLE_BYTE_UPPER_LIMIT;
    var raw := if typed then input[1..] else input;
    var started := before.(kind := if typed then input[0] else LEGACY_TX);
    match Decode(raw)
    case Malformed => after == started
    case Parsed(v, _) =>
      if v.Str? || (typed && TxTypeFromByte(input[0]).Err?) then after == started
      else Abandoned(started, v.elems, raw, keccak, after)
  }

  /** A telegram object: decoding assigns its fields one after another. */
  class TelegramRef {
    var t: Telegram

    constructor (t: Telegram)
      ensures this.t == t
    {
      this.t := t;
    }

    method UnmarshalRLP(input: Bytes, keccak: Bytes -> Hash) returns (res: Result<()>)
      modifies this
      ensures match TelegramCodec.UnmarshalRLP(old(t), input, keccak)
              case Ok(t') => res == Ok(()) && t == t'
              case Err(e) => res == Err(e) && Failed(old(t), input, keccak, t)
    {
      hide Abandoned, TelegramCodec.FromElems;
      t := t.(kind := LEGACY_TX);
      var offset := 0;
      if |input| > 0 && input[0] <= RLP_SINGLE_BYTE_UPPER_LIMIT {
        t := t.(kind := input[0]);
        var _ :- TxTypeFromByte(input[0]);
        offset := 1;
      }
      assert input[0..] == input;
      var parsed := Decode(input[offset..]);
      if parsed.Malformed? {
        return Err(Error.Malformed);
      }
      if parsed.value.Str? {
        return Err(NotBytes);
      }
      res := this.FromElems(parsed.value.elems, input[offset..], keccak);
    }

    method FromElems(elems: seq<Value>, raw: Bytes, keccak: Bytes -> Hash) returns (res: Result<()>)
      modifies this
      ensures match TelegramCodec.FromElems(old(t), elems, raw, keccak)
              case Ok(t') => res == Ok(()) && t == t'
              case Err(e) => res == Err(e) && Abandoned(old(t), elems, raw, keccak, t)
    {
      hide FromBytes, BytesOr, FirstUnread, Call, Stopped, GetBigInt, With;
      if |elems| < 9 || 9 < |elems| < 14 {
        return Err(WrongElementCount);
      }
      t := t.(hash := keccak(raw));
      ghost var start := t;
      var _ :- CallFromElems(elems, start);
      if |elems| > 9 {
        var _ :- ResponseFromElems(elems, start);
      }
      if t.kind == STATE_TX {
        t := t.(from := ZERO_ADDRESS);
        if |elems| > 14 {
          t := t.(from := BytesOr(elems[14], ADDRESS_LENGTH, ZERO_ADDRESS));
        }
      }
      res := Ok(());
    }

    /** The call part. */
    method CallFromElems(elems: seq<Value>, ghost start: Telegram) returns (res: Result<()>)
      requires |elems| >= 9 && t == start
      modifies this
      ensures match Call(old(t), elems)
              case Ok(t') => res == Ok(()) && t == t' && FirstUnread(elems, 0) >= 9 && t == Filled(start, elems, 9)
              case Err(e) => res == Err(e) && FirstUnread(elems, 0) < 9 && Stopped(start, elems, t)
    {
      hide FirstUnread, Filled, Call, Stopped;
      CallIsFilled(t, elems);
      FilledNone(start, elems);
      res := ToFromElems(elems, start);
      if res.Ok? {
        res := ValuesFromElems(elems, start);
      }
    }

    /** From the nonce to the receiver. */
    method ToFromElems(elems: seq<Value>, ghost start: Telegram) returns (res: Result<()>)
      requires |elems| >= 9 && t == start
      modifies this
      ensures var n := FirstUnread(elems, 0);
              if n < 4 then res == Err(ErrorOf(n, elems[n])) && Stopped(start, elems, t)
              else res == Ok(()) && t == Filled(start, elems, 4)
    {
      hide FromBytes, GetTo, FirstUnread, Filled;
      FilledNone(start, elems);
      var lostNonce: Uint64 := *;
      t := t.(nonce := lostNonce);
      var nonce :- GetUint64(elems[0]);
      t := t.(nonce := nonce);
      FilledNext(start, elems, 0);
      t := t.(gasPrice := Big(0));
      var gasPrice :- GetBigInt(elems[1]);
      t := t.(gasPrice := gasPrice);
      FilledNext(start, elems, 1);
      var lostGas: Uint64 := *;
      t := t.(gas := lostGas);
      var gas :- GetUint64(elems[2]);
      t := t.(gas := gas);
      FilledNext(start, elems, 2);
      t := t.(to := GetTo(elems[3]));
      FilledNext(start, elems, 3);
      res := Ok(());
    }

    /** From the value to the signature. */
    method ValuesFromElems(elems: seq<Value>, ghost start: Telegram) returns (res: Result<()>)
      requires |elems| >= 9 && FirstUnread(elems, 0) >= 4 && t == Filled(start, elems, 4)
      modifies this
      ensures var n := FirstUnread(elems, 0);
              if n < 9 then res == Err(ErrorOf(n, elems[n])) && Stopped(start, elems, t)
              else res == Ok(()) && t == Filled(start, elems, 9)
    {
      hide FromBytes, FirstUnread, Filled;
      t := t.(value := Big(0));
      var value :- GetBigInt(elems[4]);
      t := t.(value := value);
      FilledNext(start, elems, 4);
      var lostInput: Bytes := *;
      t := t.(input := lostInput);
      var input :- GetBytes(elems[5]);
      t := t.(input := input);
      FilledNext(start, elems, 5);
      t := t.(v := Big(0));
      var v :- GetBigInt(elems[6]);
      t := t.(v := v);
      FilledNext(start, elems, 6);
      t := t.(r := Big(0));
      var r :- GetBigInt(elems[7]);
      t := t.(r := r);
      FilledNext(start, elems, 7);
      t := t.(s := Big(0));
      var s :- GetBigInt(elems[8]);
      t := t.(s := s);
      FilledNext(start, elems, 8);
      res := Ok(());
    }

    /** The response part of a list that has one. */
    method ResponseFromElems(elems: seq<Value>, ghost start: Telegram) returns (res: Result<()>)
      requires |elems| >= 14 && FirstUnread(elems, 0) >= 9 && t == Filled(start, elems, 9)
      modifies this
      ensures match Responses(old(t), elems)
              case Ok(t') => res == Ok(()) && t == t'
              case Err(e) => res == Err(e) && Stopped(start, elems, t)
    {
      hide FromBytes, BytesOr, FirstUnread;
      t := t.(respV := Big(0));
      var respV :- GetBigInt(elems[9]);
      t := t.(respV := respV);
      assert t == Filled(start, elems, 10);
      t := t.(respR := Big(0));
      var respR :- GetBigInt(elems[10]);
      t := t.(respR := respR);
      assert t == Filled(start, elems, 11);
      t := t.(respS := Big(0));
      var respS :- GetBigInt(elems[11]);
      t := t.(respS := respS);
      assert t == Filled(start, elems, 12);
      t := t.(respHash := BytesOr(elems[12], HASH_LENGTH, ZERO_HASH));
      t := t.(respFrom := BytesOr(elems[13], ADDRESS_LENGTH, ZERO_ADDRESS));
      res := Ok(());
    }
  }
}

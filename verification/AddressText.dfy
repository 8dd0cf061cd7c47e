/**
 The text form of addresses and hashes (core/types/types.go:45-97, 135-171).

 An address is written in hexadecimal with the letter case of EIP-55, which depends on a hash of
 the lower-case form; the hash function is a parameter. Reading ignores the case, and it ignores
 where the text stops being hexadecimal.
 */
module AddressText {
  import opened Bytes
  import opened FixedBytes

  datatype Result<T> = Ok(value: T) | IncorrectLength

  // ---- hexadecimal ----

  const LOWER: string := "0123456789abcdef"
  const UPPER: string := "0123456789ABCDEF"

  function LowerDigit(n: nat): char
    requires n < 16
  {
    if n < 10 then ('0' as int + n) as char else ('a' as int + n - 10) as char
  }

  /** `hex.EncodeToString`. */
  function EncodeHex(b: Bytes): (s: string)
    ensures |s| == 2 * |b|
  {
    if b == [] then "" else [LowerDigit(b[0] / 16), LowerDigit(b[0] % 16)] + EncodeHex(b[1..])
  }

  predicate IsHex(c: char) {
    '0' <= c <= '9' || 'a' <= c <= 'f' || 'A' <= c <= 'F'
  }

  function DigitValue(c: char): (n: nat)
    requires IsHex(c)
    ensures n < 16
  {
    if '0' <= c <= '9' then c as int - '0' as int
    else if 'a' <= c <= 'f' then c as int - 'a' as int + 10
    else c as int - 'A' as int + 10
  }

  /** `hex.DecodeString` without its error: the bytes before the first pair that is not hexadecimal. */
  function DecodeHex(s: string): Bytes {
    if |s| < 2 || !IsHex(s[0]) || !IsHex(s[1]) then []
    else [DigitValue(s[0]) * 16 + DigitValue(s[1])] + DecodeHex(s[2..])
  }

  /** `strings.TrimPrefix(str, "0x")`. */
  function TrimPrefix(s: string): string {
    if |s| >= 2 && s[..2] == "0x" then s[2..] else s
  }

  /** The text without its prefix, brought to an even length. */
  function Padded(s: string): (t: string)
    ensures |t| % 2 == 0
  {
    var t := TrimPrefix(s);
    if |t| % 2 == 1 then "0" + t else t
  }

  function StringToBytes(s: string): Bytes {
    DecodeHex(Padded(s))
  }

  function StringToAddress(s: string): Address {
    BytesToAddress(StringToBytes(s))
  }

  function StringToHash(s: string): Hash {
    BytesToHash(StringToBytes(s))
  }

  /** `Address.UnmarshalText`. */
  function UnmarshalAddress(s: string): Result<Address> {
    var b := StringToBytes(s);
    if |b| != ADDRESS_LENGTH then IncorrectLength else Ok(BytesToAddress(b))
  }

  // ---- EIP-55 ----

  /** `unicode.ToUpper` on what hexadecimal text consists of. */
  function ToUpper(c: char): char {
    if 'a' <= c <= 'z' then (c as int - 32) as char else c
  }

  /** A letter is raised where the digit of the hash is above 7. */
  function Cased(c: char, h: char): char {
    if '0' <= c <= '9' || '0' <= h <= '7' then c else ToUpper(c)
  }

  function Checksummed(s: string, hashed: string): (r: string)
    requires |s| <= |hashed|
    ensures |r| == |s|
  {
    seq(|s|, i requires 0 <= i < |s| => Cased(s[i], hashed[i]))
  }

  /** `checksumEncode`, which `String` and `MarshalText` call. */
  function ChecksumEncode(a: Address, keccak: string -> Hash): string {
    "0x" + Checksummed(EncodeHex(a), EncodeHex(keccak(EncodeHex(a))))
  }

  /** The loop of `checksumEncode`. */
  method ChecksumEncodeLoop(a: Address, keccak: string -> Hash) returns (text: string)
    ensures text == ChecksumEncode(a, keccak)
  {
    var lowercaseHex := EncodeHex(a);
    var hashedAddress := EncodeHex(keccak(lowercaseHex));
    var result := "";
    for idx := 0 to |lowercaseHex|
      invariant result == Checksummed(lowercaseHex, hashedAddress)[..idx]
    {
      var ch := lowercaseHex[idx];
      if '0' <= ch <= '9' || '0' <= hashedAddress[idx] <= '7' {
        result := result + [ch];
      } else {
        result := result + [ToUpper(ch)];
      }
    }
    text := "0x" + result;
  }

  /** `Hash.String`, `Hash.MarshalText`. */
  function HashString(h: Hash): string {
    "0x" + EncodeHex(h)
  }

  // ---- reading back ----

  /** The same text up to the case of hexadecimal letters. */
  ghost predicate SameUpToCase(s: string, t: string) {
    |s| == |t| && forall i | 0 <= i < |s| ::
      s[i] == t[i] || (IsHex(s[i]) && IsHex(t[i]) && DigitValue(s[i]) == DigitValue(t[i]))
  }

  /** EIP-55 changes the case of letters only. */
  lemma ChecksumKeepsDigits(s: string, hashed: string)
    requires |s| <= |hashed| && forall i | 0 <= i < |s| :: '0' <= s[i] <= '9' || 'a' <= s[i] <= 'f'
    ensures SameUpToCase(s, Checksummed(s, hashed))
  {
  }

  /** Decoding does not look at the case. */
  lemma {:induction false} CaseIgnored(s: string, t: string)
    requires SameUpToCase(s, t)
    ensures DecodeHex(s) == DecodeHex(t)
    decreases |s|
  {
    if |s| >= 2 {
      assert s[0] == t[0] || (IsHex(s[0]) && IsHex(t[0]));
      assert s[1] == t[1] || (IsHex(s[1]) && IsHex(t[1]));
      assert forall i | 0 <= i < |s| - 2 :: s[2..][i] == s[i + 2] && t[2..][i] == t[i + 2];
      CaseIgnored(s[2..], t[2..]);
    }
  }

  lemma {:induction false} EncodedIsLowerHex(b: Bytes)
    ensures forall i | 0 <= i < |EncodeHex(b)| :: '0' <= EncodeHex(b)[i] <= '9' || 'a' <= EncodeHex(b)[i] <= 'f'
    decreases |b|
  {
    if b != [] {
      EncodedIsLowerHex(b[1..]);
    }
  }

  lemma DigitRoundTrip(n: nat)
    requires n < 16
    ensures IsHex(LowerDigit(n)) && DigitValue(LowerDigit(n)) == n
  {
  }

  /** Decoding undoes encoding, and goes on behind it. */
  lemma {:induction false} DecodeOfSum(b: Bytes, tail: string)
    ensures DecodeHex(EncodeHex(b) + tail) == b + DecodeHex(tail)
    decreases |b|
  {
    hide LowerDigit, DigitValue, IsHex;
    if b == [] {
      assert EncodeHex(b) + tail == tail;
    } else {
      var hi, lo := LowerDigit(b[0] / 16), LowerDigit(b[0] % 16);
      var rest := EncodeHex(b[1..]) + tail;
      DigitRoundTrip(b[0] / 16);
      DigitRoundTrip(b[0] % 16);
      assert EncodeHex(b) + tail == [hi, lo] + rest;
      DecodePair(hi, lo, rest);
      DecodeOfSum(b[1..], tail);
      assert b + DecodeHex(tail) == [b[0]] + (b[1..] + DecodeHex(tail));
    }
  }

  lemma DecodePair(hi: char, lo: char, rest: string)
    requires IsHex(hi) && IsHex(lo)
    ensures DecodeHex([hi, lo] + rest) == [DigitValue(hi) * 16 + DigitValue(lo)] + DecodeHex(rest)
  {
    assert ([hi, lo] + rest)[2..] == rest;
  }

  lemma HexRoundTrip(b: Bytes)
    ensures DecodeHex(EncodeHex(b)) == b
  {
    DecodeOfSum(b, "");
    assert EncodeHex(b) + "" == EncodeHex(b);
    assert DecodeHex("") == [] && b + [] == b;
  }

  /** Text that starts with 0x and goes on with whole pairs is decoded from there. */
  lemma PrefixedToBytes(s: string)
    requires |s| % 2 == 0
    ensures StringToBytes("0x" + s) == DecodeHex(s)
  {
    assert ("0x" + s)[..2] == "0x" && ("0x" + s)[2..] == s;
  }

  /** Address text round trip, for any hash function. */
  lemma AddressRoundTrip(a: Address, keccak: string -> Hash)
    ensures UnmarshalAddress(ChecksumEncode(a, keccak)) == Ok(a)
    ensures StringToAddress(ChecksumEncode(a, keccak)) == a
  {
    var s := EncodeHex(a);
    var t := Checksummed(s, EncodeHex(keccak(s)));
    EncodedIsLowerHex(a);
    ChecksumKeepsDigits(s, EncodeHex(keccak(s)));
    CaseIgnored(s, t);
    HexRoundTrip(a);
    PrefixedToBytes(t);
  }

  lemma HashRoundTrip(h: Hash)
    ensures StringToHash(HashString(h)) == h
  {
    HexRoundTrip(h);
    PrefixedToBytes(EncodeHex(h));
  }

  lemma {:induction false} DecodedLength(t: string, n: nat)
    ensures |DecodeHex(t)| >= n <==> 2 * n <= |t| && forall i | 0 <= i < 2 * n :: IsHex(t[i])
    decreases n
  {
    if n > 0 && |t| >= 2 && IsHex(t[0]) && IsHex(t[1]) {
      DecodedLength(t[2..], n - 1);
      assert forall i | 2 <= i < |t| :: t[i] == t[2..][i - 2];
      assert forall i | 0 <= i < |t| - 2 :: t[2..][i] == t[i + 2];
    } else if n > 0 {
      assert |DecodeHex(t)| == 0;
    }
  }

  /** What is decoded are the pairs in front that are hexadecimal, all of them. */
  lemma {:induction false} DecodedPairs(t: string)
    ensures var b := DecodeHex(t);
            && 2 * |b| <= |t|
            && (forall i | 0 <= i < |b| ::
                  IsByte(b[i], t[2 * i], t[2 * i + 1]))
            && (2 * |b| + 1 < |t| ==> !IsHex(t[2 * |b|]) || !IsHex(t[2 * |b| + 1]))
    decreases |t|
  {
    hide IsHex, DigitValue;
    if |t| >= 2 && IsHex(t[0]) && IsHex(t[1]) {
      var b, u := DecodeHex(t), t[2..];
      DecodedPairs(u);
      assert b == [DigitValue(t[0]) * 16 + DigitValue(t[1])] + DecodeHex(u);
      forall i | 0 < i < |b|
        ensures IsByte(b[i], t[2 * i], t[2 * i + 1])
      {
        assert u[2 * (i - 1)] == t[2 * i] && u[2 * (i - 1) + 1] == t[2 * i + 1];
      }
    }
  }

  /** Reading drops one 0x and puts a zero in front of an odd number of characters. */
  lemma PaddedIs(s: string)
    ensures var u := if |s| >= 2 && s[0] == '0' && s[1] == 'x' then s[2..] else s;
            && Padded(s) == (if |u| % 2 == 1 then "0" + u else u)
            && StringToBytes(s) == DecodeHex(Padded(s))
            && FromBytes(StringToAddress(s)) == FromBytes(DecodeHex(Padded(s))) % Pow256(20)
            && FromBytes(StringToHash(s)) == FromBytes(DecodeHex(Padded(s))) % Pow256(32)
  {
    if |s| >= 2 {
      assert s[..2] == [s[0], s[1]];
    }
    LastBytes(DecodeHex(Padded(s)));
  }

  lemma ReadFrom(s: string, t: string)
    requires t == Padded(s)
    ensures var r := UnmarshalAddress(s);
            && (r.Ok? <==> 40 <= |t| && (forall i | 0 <= i < 40 :: IsHex(t[i]))
                           && (|t| == 40 || !IsHex(t[40]) || !IsHex(t[41])))
            && (r.Ok? ==> forall i | 0 <= i < 20 :: IsByte(r.value[i], t[2 * i], t[2 * i + 1]))
  {
    hide DecodeHex, IsHex, Padded, IsByte;
    DecodedLength(t, 20);
    DecodedLength(t, 21);
    DecodedPairs(t);
  }

  /** Text is read as an address exactly when, without its prefix, it has 40 hexadecimal digits and then
      stops being hexadecimal, a zero in front standing for a missing digit; the address is made of
      those digits, two to a byte. */
  lemma AcceptedIff(s: string)
    ensures var u := if |s| >= 2 && s[0] == '0' && s[1] == 'x' then s[2..] else s;
            var t := if |u| % 2 == 1 then "0" + u else u;
            var r := UnmarshalAddress(s);
            && (r.Ok? <==> 40 <= |t| && (forall i | 0 <= i < 40 :: IsHex(t[i]))
                           && (|t| == 40 || !IsHex(t[40]) || !IsHex(t[41])))
            && (r.Ok? ==> forall i | 0 <= i < 20 :: IsByte(r.value[i], t[2 * i], t[2 * i + 1]))
  {
    PaddedIs(s);
    ReadFrom(s, Padded(s));
    hide UnmarshalAddress, IsHex, Padded, IsByte;
  }

  /** Two digits, the higher one first. */
  predicate IsByte(x: Byte, hi: char, lo: char) {
    IsHex(hi) && IsHex(lo) && x == 16 * DigitValue(hi) + DigitValue(lo)
  }

  /** The digits, in either case, and what they stand for. */
  lemma HexDigits(c: char)
    ensures IsHex(c) <==> c in "0123456789abcdefABCDEF"
    ensures IsHex(c) ==> c == LOWER[DigitValue(c)] || c == UPPER[DigitValue(c)]
  {
    if IsHex(c) {
      var n := DigitValue(c);
      assert c == "0123456789abcdefABCDEF"[if 'A' <= c <= 'F' then n + 6 else n];
    }
  }

  lemma SameTail(s: string, t: string, tail: string)
    requires SameUpToCase(s, t)
    ensures SameUpToCase(s + tail, t + tail)
  {
  }

  /** An address followed by text of even length is accepted exactly when that does not go on with two
      hexadecimal digits, whatever the case of the letters, so also behind the checksummed text. */
  lemma TrailingTextAccepted(a: Address, s: string, tail: string)
    requires SameUpToCase(EncodeHex(a), s) && |tail| % 2 == 0
    ensures UnmarshalAddress("0x" + s + tail) == Ok(a) <==> |tail| < 2 || !IsHex(tail[0]) || !IsHex(tail[1])
  {
    assert DecodeHex(tail) == [] <==> |tail| < 2 || !IsHex(tail[0]) || !IsHex(tail[1]);
    hide DecodeHex, EncodeHex, StringToBytes, IsHex;
    assert "0x" + s + tail == "0x" + (s + tail);
    PrefixedToBytes(s + tail);
    SameTail(EncodeHex(a), s, tail);
    CaseIgnored(EncodeHex(a) + tail, s + tail);
    DecodeOfSum(a, tail);
    assert DecodeHex(tail) == [] ==> a + DecodeHex(tail) == a;
  }

  /** One byte of text that has a digit too many in front. */
  lemma ShiftedPair(c: char, b: Bytes, tail: string)
    requires IsHex(c) && b != []
    ensures DecodeHex([c] + EncodeHex(b) + tail) ==
      [DigitValue(c) * 16 + b[0] / 16] + DecodeHex([LowerDigit(b[0] % 16)] + EncodeHex(b[1..]) + tail)
  {
    hide LowerDigit, DigitValue, IsHex;
    var next := [LowerDigit(b[0] % 16)] + EncodeHex(b[1..]) + tail;
    assert [c] + EncodeHex(b) + tail == [c, LowerDigit(b[0] / 16)] + next;
    DigitRoundTrip(b[0] / 16);
    DecodePair(c, LowerDigit(b[0] / 16), next);
  }

  /** Decoding with one digit in front: every byte is put together from two, and the last digit pairs
      with what follows. */
  lemma {:induction false} DecodeShifted(c: char, b: Bytes, tail: string)
    requires IsHex(c) && tail != ""
    ensures var r := DecodeHex([c] + EncodeHex(b) + tail);
            if IsHex(tail[0]) then |r| > |b|
            else |r| == |b| && FromBytes(r) == (DigitValue(c) * Pow256(|b|) + FromBytes(b)) / 16
    decreases |b|
  {
    if b == [] {
      assert [c] + EncodeHex(b) + tail == [c] + tail;
      assert FromBytes([]) == 0 && Pow256(0) == 1;
    } else {
      hide LowerDigit, DigitValue, IsHex, DecodeHex, EncodeHex, FromBytes, Pow256;
      var lo, rest := LowerDigit(b[0] % 16), b[1..];
      DigitRoundTrip(b[0] % 16);
      ShiftedPair(c, b, tail);
      DecodeShifted(lo, rest, tail);
      if !IsHex(tail[0]) {
        ShiftedValue(DigitValue(c), b, DecodeHex([lo] + EncodeHex(rest) + tail));
      }
    }
  }

  lemma ShiftedValue(d: nat, b: Bytes, r: Bytes)
    requires d < 16 && b != [] && |r| == |b| - 1
    requires FromBytes(r) == (b[0] % 16 * Pow256(|r|) + FromBytes(b[1..])) / 16
    ensures FromBytes([d * 16 + b[0] / 16] + r) == (d * Pow256(|b|) + FromBytes(b)) / 16
  {
    hide FromBytes;
    LeadingByte(d * 16 + b[0] / 16, r);
    LeadingByte(b[0], b[1..]);
    assert b == [b[0]] + b[1..];
    ShiftStep(d, b[0] / 16, b[0] % 16, Pow256(|r|), FromBytes(b[1..]));
  }

  lemma LeadingByte(x: Byte, b: Bytes)
    ensures FromBytes([x] + b) == x * Pow256(|b|) + FromBytes(b)
  {
    FromSum([x], b);
    assert [x][..0] == [] && FromBytes([x]) == x;
  }

  lemma ShiftStep(d: nat, hi: nat, lo: nat, p: nat, f: nat)
    ensures (d * 16 + hi) * p + (lo * p + f) / 16 == (d * (256 * p) + ((hi * 16 + lo) * p + f)) / 16
  {
    var k, m := (d * 16 + hi) * p, lo * p + f;
    assert d * (256 * p) + ((hi * 16 + lo) * p + f) == 16 * k + m by {
      assert d * (256 * p) == 16 * ((d * 16) * p);
      assert (hi * 16 + lo) * p == 16 * (hi * p) + lo * p;
      assert k == (d * 16) * p + hi * p;
    }
  }

  /** An odd number of characters behind an address shifts it: it is accepted exactly when the first
      of them is not hexadecimal, as an address without the last digit. */
  lemma OddTailShifts(a: Address, s: string, tail: string)
    requires SameUpToCase(EncodeHex(a), s) && |tail| % 2 == 1
    ensures var r := UnmarshalAddress("0x" + s + tail);
            && (r.Ok? <==> !IsHex(tail[0]))
            && (r.Ok? ==> FromBytes(r.value) == FromBytes(a) / 16)
  {
    assert |s| == |EncodeHex(a)|;
    hide DecodeHex, EncodeHex, FromBytes, Pow256, SameUpToCase, Padded, DigitValue;
    OddPadded(s, tail);
    SameTail(EncodeHex(a), s, tail);
    SameFront(EncodeHex(a) + tail, s + tail);
    CaseIgnored("0" + (EncodeHex(a) + tail), "0" + (s + tail));
    assert "0" + (EncodeHex(a) + tail) == ['0'] + EncodeHex(a) + tail;
    assert DigitValue('0') == 0 by { DigitRoundTrip(0); }
    assert IsHex('0');
    DecodeShifted('0', a, tail);
  }

  lemma OddPadded(s: string, tail: string)
    requires (|s| + |tail|) % 2 == 1
    ensures Padded("0x" + s + tail) == "0" + (s + tail)
  {
    assert ("0x" + s + tail)[..2] == "0x" && ("0x" + s + tail)[2..] == s + tail;
  }

  lemma SameFront(s: string, t: string)
    requires SameUpToCase(s, t)
    ensures SameUpToCase("0" + s, "0" + t)
  {
    assert forall i | 0 < i <= |s| :: ("0" + s)[i] == s[i - 1] && ("0" + t)[i] == t[i - 1];
  }

  /** The text the program writes is such a text. */
  lemma ChecksumIsSuchText(a: Address, keccak: string -> Hash)
    ensures var s := Checksummed(EncodeHex(a), EncodeHex(keccak(EncodeHex(a))));
            ChecksumEncode(a, keccak) == "0x" + s && SameUpToCase(EncodeHex(a), s)
  {
    EncodedIsLowerHex(a);
    ChecksumKeepsDigits(EncodeHex(a), EncodeHex(keccak(EncodeHex(a))));
  }

  // ---- what is written ----

  /** Two digits to a byte. */
  lemma {:induction false} EncodedPairs(b: Bytes, i: nat)
    requires i < |b|
    ensures EncodeHex(b)[2 * i] == LOWER[b[i] / 16] && EncodeHex(b)[2 * i + 1] == LOWER[b[i] % 16]
    decreases |b|
  {
    if i > 0 {
      EncodedPairs(b[1..], i - 1);
      assert EncodeHex(b)[2 * i] == EncodeHex(b[1..])[2 * (i - 1)];
      assert EncodeHex(b)[2 * i + 1] == EncodeHex(b[1..])[2 * (i - 1) + 1];
    }
  }

  lemma HashWritten(h: Hash, i: nat)
    requires i < 32
    ensures |HashString(h)| == 66 && HashString(h)[..2] == "0x"
    ensures HashString(h)[2 + 2 * i] == LOWER[h[i] / 16] && HashString(h)[3 + 2 * i] == LOWER[h[i] % 16]
  {
    EncodedPairs(h, i);
  }

  /** A raised digit is the upper-case one, and one that is not raised is as it was. */
  lemma CasedDigit(n: nat, m: nat)
    requires n < 16 && m < 16
    ensures Cased(LOWER[n], LOWER[m]) == if m >= 8 then UPPER[n] else LOWER[n]
  {
    assert Cased(LOWER[n], '7') == LOWER[n];
    assert m >= 8 <==> !('0' <= LOWER[m] <= '7');
    assert n < 10 ==> '0' <= LOWER[n] <= '9' && LOWER[n] == UPPER[n];
    assert n >= 10 ==> 'a' <= LOWER[n] <= 'f' && ToUpper(LOWER[n]) == UPPER[n];
  }

  lemma SameDigits(a: Address, lower: string)
    requires |lower| == 40
    requires forall j | 0 <= j < 20 :: lower[2 * j] == LOWER[a[j] / 16] && lower[2 * j + 1] == LOWER[a[j] % 16]
    ensures EncodeHex(a) == lower
  {
    hide EncodeHex;
    forall k | 0 <= k < 40 ensures EncodeHex(a)[k] == lower[k] {
      EncodedPairs(a, k / 2);
      assert k == 2 * (k / 2) || k == 2 * (k / 2) + 1;
    }
  }

  /** EIP-55: a digit of the address is written in upper case exactly where the digit of the hash of the
      lower-case text at the same place is at least 8. */
  lemma ChecksumWritten(a: Address, keccak: string -> Hash, lower: string, i: nat)
    requires |lower| == 40
    requires forall j | 0 <= j < 20 :: lower[2 * j] == LOWER[a[j] / 16] && lower[2 * j + 1] == LOWER[a[j] % 16]
    requires i < 20
    ensures var text, h := ChecksumEncode(a, keccak), keccak(lower);
            && |text| == 42 && text[..2] == "0x"
            && text[2 + 2 * i] == (if h[i] / 16 >= 8 then UPPER else LOWER)[a[i] / 16]
            && text[3 + 2 * i] == (if h[i] % 16 >= 8 then UPPER else LOWER)[a[i] % 16]
  {
    SameDigits(a, lower);
    var h := keccak(lower);
    EncodedPairs(h, i);
    CasedDigit(a[i] / 16, h[i] / 16);
    CasedDigit(a[i] % 16, h[i] % 16);
    hide EncodeHex, Cased;
  }

  /** What is read when something is left over behind the text that the program wrote. */
  lemma WrittenWithTail(a: Address, keccak: string -> Hash, tail: string)
    ensures var r := UnmarshalAddress(ChecksumEncode(a, keccak) + tail);
            if |tail| % 2 == 0 then r == Ok(a) <==> |tail| < 2 || !IsHex(tail[0]) || !IsHex(tail[1])
            else (r.Ok? <==> !IsHex(tail[0])) && (r.Ok? ==> FromBytes(r.value) == FromBytes(a) / 16)
  {
    var s := Checksummed(EncodeHex(a), EncodeHex(keccak(EncodeHex(a))));
    ChecksumIsSuchText(a, keccak);
    hide EncodeHex, Checksummed, ChecksumEncode, UnmarshalAddress, SameUpToCase, FromBytes, IsHex;
    if |tail| % 2 == 0 {
      TrailingTextAccepted(a, s, tail);
    } else {
      OddTailShifts(a, s, tail);
    }
  }
}

/** Byte strings and big-endian integers, as `big.Int.Bytes` and `SetBytes` read and write them. */
module Bytes {

  type Byte = x: int | 0 <= x < 256

  type Bytes = seq<Byte>

  type Uint64 = x: int | 0 <= x < 0x1_0000_0000_0000_0000

  function Zeros(n: nat): (z: Bytes)
    ensures |z| == n && forall i | 0 <= i < n :: z[i] == 0
  {
    seq(n, _ => 0)
  }

  /** The shortest big-endian form; zero is the empty string. */
  function ToBytes(n: nat): Bytes {
    if n == 0 then [] else ToBytes(n / 256) + [n % 256]
  }

  function FromBytes(b: Bytes): nat {
    if b == [] then 0 else FromBytes(b[..|b| - 1]) * 256 + b[|b| - 1]
  }

  function Pow256(k: nat): (p: nat)
    ensures p > 0
  {
    if k == 0 then 1 else 256 * Pow256(k - 1)
  }

  lemma {:induction false} FromTo(n: nat)
    ensures FromBytes(ToBytes(n)) == n
  {
    if n != 0 {
      FromTo(n / 256);
      assert ToBytes(n)[..|ToBytes(n)| - 1] == ToBytes(n / 256);
    }
  }

  lemma {:induction false} NoLeadingZero(n: nat)
    requires n > 0
    ensures ToBytes(n) != [] && ToBytes(n)[0] != 0
  {
    if n >= 256 {
      NoLeadingZero(n / 256);
    } else {
      assert ToBytes(n) == [] + [n];
    }
  }

  lemma {:induction false} ToFrom(b: Bytes)
    requires b != [] ==> b[0] != 0
    ensures ToBytes(FromBytes(b)) == b
    ensures FromBytes(b) == 0 <==> b == []
    decreases |b|
  {
    if b != [] {
      var front, last := b[..|b| - 1], b[|b| - 1];
      var high := FromBytes(front);
      assert b == front + [last] && FromBytes(b) == high * 256 + last;
      ToFrom(front);
      hide FromBytes;
      assert |b| > 1 ==> high > 0;
      assert (high * 256 + last) / 256 == high && (high * 256 + last) % 256 == last;
    }
  }

  lemma {:induction false} SizeOf(n: nat, k: nat)
    requires n < Pow256(k)
    ensures |ToBytes(n)| <= k
    decreases k
  {
    if n != 0 {
      SizeOf(n / 256, k - 1);
    }
  }

  lemma {:induction false} ValueBound(b: Bytes)
    ensures FromBytes(b) < Pow256(|b|)
    decreases |b|
  {
    if b != [] {
      ValueBound(b[..|b| - 1]);
    }
  }

  lemma Pow256Of8()
    ensures Pow256(8) == 0x1_0000_0000_0000_0000
  {
    assert Pow256(2) == 0x1_0000;
    assert Pow256(4) == 0x1_0000_0000;
    assert Pow256(6) == 0x1_0000_0000_0000;
  }

  lemma Uint64Size(n: Uint64)
    ensures |ToBytes(n)| <= 8
  {
    Pow256Of8();
    SizeOf(n, 8);
  }

  // ---- leading zeros and truncation ----

  lemma {:induction false} FromPadded(z: nat, b: Bytes)
    ensures FromBytes(Zeros(z) + b) == FromBytes(b)
    decreases z + |b|
  {
    if b != [] {
      assert (Zeros(z) + b)[..z + |b| - 1] == Zeros(z) + b[..|b| - 1];
      FromPadded(z, b[..|b| - 1]);
    } else if z > 0 {
      assert (Zeros(z) + b)[..z - 1] == Zeros(z - 1) + b;
      FromPadded(z - 1, b);
    }
  }

  /** A value is its high part times a power of 256, plus its low part. */
  lemma {:induction false} FromSum(hi: Bytes, lo: Bytes)
    ensures FromBytes(hi + lo) == FromBytes(hi) * Pow256(|lo|) + FromBytes(lo)
    decreases |lo|
  {
    if lo == [] {
      assert hi + lo == hi;
    } else {
      var l := lo[..|lo| - 1];
      assert (hi + lo)[..|hi + lo| - 1] == hi + l;
      FromSum(hi, l);
      assert FromBytes(hi) * Pow256(|lo|) == FromBytes(hi) * Pow256(|l|) * 256;
    }
  }

  /** Left-padding to k bytes restores a k-byte string from its value. */
  lemma {:induction false} PadRestores(b: Bytes)
    ensures |ToBytes(FromBytes(b))| <= |b|
    ensures Zeros(|b| - |ToBytes(FromBytes(b))|) + ToBytes(FromBytes(b)) == b
    decreases |b|
  {
    if b == [] {
    } else if b[0] != 0 {
      ToFrom(b);
    } else {
      assert b == Zeros(1) + b[1..];
      FromPadded(1, b[1..]);
      PadRestores(b[1..]);
      var m := ToBytes(FromBytes(b));
      assert Zeros(|b| - |m|) + m == [0] + (Zeros(|b| - 1 - |m|) + m);
    }
  }
}

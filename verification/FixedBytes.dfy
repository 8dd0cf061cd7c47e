/** Addresses and hashes: fixed-size byte arrays filled from the right (core/types/types.go:17-43, 124-133). */
module FixedBytes {
  import opened Bytes

  const ADDRESS_LENGTH: nat := 20
  const HASH_LENGTH: nat := 32

  type Address = b: Bytes | |b| == ADDRESS_LENGTH witness Zeros(ADDRESS_LENGTH)
  type Hash = b: Bytes | |b| == HASH_LENGTH witness Zeros(HASH_LENGTH)

  const ZERO_ADDRESS: Address := Zeros(ADDRESS_LENGTH)
  const ZERO_HASH: Hash := Zeros(HASH_LENGTH)

  /** A zeroed array of n bytes with the last n bytes of b, or all of them, copied to its end. */
  function Fixed(b: Bytes, n: nat): (r: Bytes)
    ensures |r| == n
    ensures |b| == n ==> r == b
  {
    var m := if |b| < n then |b| else n;
    Zeros(n - m) + b[|b| - m..]
  }

  function BytesToAddress(b: Bytes): Address {
    Fixed(b, ADDRESS_LENGTH)
  }

  function BytesToHash(b: Bytes): Hash {
    Fixed(b, HASH_LENGTH)
  }

  /** Filling an array keeps the big-endian value modulo the array's size. */
  lemma FixedValue(b: Bytes, n: nat)
    ensures FromBytes(Fixed(b, n)) == FromBytes(b) % Pow256(n)
  {
    if |b| < n {
      assert b[0..] == b;
      FromPadded(n - |b|, b);
      ValueBound(b);
      PowMonotone(|b|, n);
      SmallRemainder(FromBytes(b), Pow256(n));
    } else {
      var hi, lo := b[..|b| - n], b[|b| - n..];
      assert b == hi + lo && Zeros(0) + lo == lo;
      FromSum(hi, lo);
      ValueBound(lo);
      RemainderOfSum(FromBytes(hi), Pow256(n), FromBytes(lo));
    }
  }

  /** So an address is the last 20 bytes of what it is made of, and a hash the last 32, as numbers. */
  lemma LastBytes(b: Bytes)
    ensures |BytesToAddress(b)| == 20 && FromBytes(BytesToAddress(b)) == FromBytes(b) % Pow256(20)
    ensures |BytesToHash(b)| == 32 && FromBytes(BytesToHash(b)) == FromBytes(b) % Pow256(32)
  {
    FixedValue(b, 20);
    FixedValue(b, 32);
  }

  lemma {:induction false} PowMonotone(j: nat, k: nat)
    requires j <= k
    ensures Pow256(j) <= Pow256(k)
    decreases k
  {
    if j < k {
      PowMonotone(j, k - 1);
    }
  }

  lemma SmallRemainder(x: nat, m: nat)
    requires x < m
    ensures x % m == x
  {
  }

  lemma RemainderOfSum(q: nat, m: nat, r: nat)
    requires r < m
    ensures (q * m + r) % m == r
  {
    var x := q * m + r;
    var d := q - x / m;
    assert x == m * (x / m) + x % m;
    assert m * d == m * q - m * (x / m);
    NonZeroMultiple(m, d);
  }

  lemma NonZeroMultiple(m: nat, d: int)
    ensures d == 0 || m * d >= m || m * d <= 0 - m
  {
    if d >= 1 {
      assert m * d == m + m * (d - 1);
    } else if d <= -1 {
      assert m * d == m * (d + 1) - m;
    }
  }
}

/** Order-keeping subsequences: what a lossy channel or socket may hand on. */
module Subsequences {

  ghost predicate Subseq<T>(a: seq<T>, b: seq<T>)
    decreases |b|
  {
    || a == []
    || (b != [] && a[|a| - 1] == b[|b| - 1] && Subseq(a[..|a| - 1], b[..|b| - 1]))
    || (b != [] && Subseq(a, b[..|b| - 1]))
  }

  lemma SubseqKeep<T>(a: seq<T>, b: seq<T>, x: T)
    requires Subseq(a, b)
    ensures Subseq(a + [x], b + [x]) && Subseq(a, b + [x])
  {
    assert (a + [x])[..|a|] == a && (b + [x])[..|b|] == b;
  }

  lemma {:induction false} SubseqPrefix<T>(a: seq<T>, b: seq<T>, k: nat)
    requires Subseq(a, b) && k <= |a|
    ensures Subseq(a[..k], b)
    decreases |b|
  {
    if k == |a| {
      assert a[..k] == a;
    } else if b != [] && a[|a| - 1] == b[|b| - 1] && Subseq(a[..|a| - 1], b[..|b| - 1]) {
      SubseqPrefix(a[..|a| - 1], b[..|b| - 1], k);
      assert a[..|a| - 1][..k] == a[..k];
    } else {
      SubseqPrefix(a, b[..|b| - 1], k);
    }
  }

  lemma PrefixIsSubseq<T>(a: seq<T>, b: seq<T>)
    requires a <= b
    ensures Subseq(a, b)
  {
    WholeIsSubseq(b);
    SubseqPrefix(b, b, |a|);
  }

  lemma {:induction false} WholeIsSubseq<T>(b: seq<T>)
    ensures Subseq(b, b)
    decreases |b|
  {
    if b != [] {
      WholeIsSubseq(b[..|b| - 1]);
    }
  }

  lemma CountMore<T>(a: seq<T>, x: T, y: T)
    ensures multiset(a + [x])[y] == multiset(a)[y] + if x == y then 1 else 0
  {
  }

  /** Every element handed on was there, in the same relative order. */
  lemma {:induction false} SubseqIndices<T>(a: seq<T>, b: seq<T>) returns (at: seq<nat>)
    requires Subseq(a, b)
    ensures |at| == |a|
    ensures forall i | 0 <= i < |a| :: at[i] < |b| && b[at[i]] == a[i]
    ensures forall i, j | 0 <= i < j < |a| :: at[i] < at[j]
    decreases |b|
  {
    if a == [] {
      at := [];
    } else if b != [] && a[|a| - 1] == b[|b| - 1] && Subseq(a[..|a| - 1], b[..|b| - 1]) {
      at := SubseqIndices(a[..|a| - 1], b[..|b| - 1]);
      at := at + [|b| - 1];
    } else {
      at := SubseqIndices(a, b[..|b| - 1]);
    }
  }
}

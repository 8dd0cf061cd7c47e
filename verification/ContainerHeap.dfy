/**
 The algorithms of Go's container/heap, on sequences of keyed items.

 Both heaps of the program (the filter timeouts and the dial queue) are driven by these
 algorithms. The module gives each algorithm as a function on values; `IndexedHeap` has the
 heap that is updated in place and shows that it computes exactly these functions.
 */
module ContainerHeap {

  datatype Entry<T> = Entry(item: T, key: int)

  function Parent(i: nat): nat {
    if i == 0 then 0 else (i - 1) / 2
  }

  /** The heap property on the first n places. */
  ghost predicate OrderedTo<T>(s: seq<Entry<T>>, n: nat)
    requires n <= |s|
  {
    forall i {:trigger Parent(i)} | 0 < i < n :: s[Parent(i)].key <= s[i].key
  }

  ghost predicate Ordered<T>(s: seq<Entry<T>>) {
    OrderedTo(s, |s|)
  }

  /** No item occurs twice. */
  ghost predicate Distinct<T>(s: seq<Entry<T>>) {
    forall i, j | 0 <= i < j < |s| :: s[i].item != s[j].item
  }

  ghost function Elements<T>(s: seq<Entry<T>>): set<Entry<T>> {
    set e | e in s
  }

  ghost function Items<T>(s: seq<Entry<T>>): set<T> {
    set e | e in s :: e.item
  }

  function Swap<T>(s: seq<Entry<T>>, i: nat, j: nat): (r: seq<Entry<T>>)
    requires i < |s| && j < |s|
    ensures |r| == |s|
  {
    s[i := s[j]][j := s[i]]
  }

  /** `up`: move the entry at j towards the root while it is less than its parent. */
  function Up<T>(s: seq<Entry<T>>, j: nat): (r: seq<Entry<T>>)
    requires j < |s|
    ensures |r| == |s|
    decreases j
  {
    if j == 0 || s[j].key >= s[Parent(j)].key then s
    else Up(Swap(s, Parent(j), j), Parent(j))
  }

  /** The child `down` compares with: the right one only when it is strictly less than the left one. */
  function LesserChild<T>(s: seq<Entry<T>>, i: nat, n: nat): (c: nat)
    requires 2 * i + 1 < n <= |s|
    ensures i < c < n && Parent(c) == i
    ensures forall d | 0 < d < n && Parent(d) == i :: s[c].key <= s[d].key
    ensures c == 2 * i + 1 <==> (2 * i + 2 < n ==> s[2 * i + 1].key <= s[2 * i + 2].key)
  {
    if 2 * i + 2 < n && s[2 * i + 2].key < s[2 * i + 1].key then 2 * i + 2 else 2 * i + 1
  }

  /** Whether `down` from i moves anything: what its result reports. */
  predicate Sinks<T>(s: seq<Entry<T>>, i: nat, n: nat)
    requires n <= |s|
  {
    2 * i + 1 < n && s[LesserChild(s, i, n)].key < s[i].key
  }

  /** `down`: move the entry at i away from the root, among the first n places. */
  function Down<T>(s: seq<Entry<T>>, i: nat, n: nat): (r: seq<Entry<T>>)
    requires n <= |s|
    ensures |r| == |s|
    decreases n - i
  {
    if !Sinks(s, i, n) then s
    else
      var c := LesserChild(s, i, n);
      Down(Swap(s, i, c), c, n)
  }

  function Push<T>(s: seq<Entry<T>>, e: Entry<T>): (r: seq<Entry<T>>)
    ensures |r| == |s| + 1
  {
    Up(s + [e], |s|)
  }

  /** What `Pop` leaves: the root swapped with the last entry, `down` from the root, truncation. */
  function PopRest<T>(s: seq<Entry<T>>): (r: seq<Entry<T>>)
    requires s != []
    ensures |r| == |s| - 1
  {
    var n := |s| - 1;
    Down(Swap(s, 0, n), 0, n)[..n]
  }

  /** `Remove` after its swap: `up` runs only when `down` moved nothing. */
  function Settle<T>(s: seq<Entry<T>>, i: nat, n: nat): (r: seq<Entry<T>>)
    requires i < n <= |s|
    ensures |r| == |s|
  {
    if Sinks(s, i, n) then Down(s, i, n) else Up(s, i)
  }

  /** What `Remove` leaves: place i swapped with the last one, settled, truncated. */
  function RemoveAt<T>(s: seq<Entry<T>>, i: nat): (r: seq<Entry<T>>)
    requires i < |s|
    ensures |r| == |s| - 1
  {
    var n := |s| - 1;
    if i == n then s[..n] else Settle(Swap(s, i, n), i, n)[..n]
  }

  /** The entries in the order in which repeated popping hands them out. */
  function Drain<T>(s: seq<Entry<T>>): (r: seq<Entry<T>>)
    ensures |r| == |s|
    decreases |s|
  {
    if s == [] then [] else [s[0]] + Drain(PopRest(s))
  }

  // ---- contents: every algorithm permutes, and leaves places outside its path alone ----

  lemma SwapKeeps<T>(s: seq<Entry<T>>, i: nat, j: nat)
    requires i < |s| && j < |s|
    ensures multiset(Swap(s, i, j)) == multiset(s)
    ensures Distinct(s) ==> Distinct(Swap(s, i, j))
  {
    var t := Swap(s, i, j);
    if Distinct(s) {
      forall a, b | 0 <= a < b < |t| ensures t[a].item != t[b].item {
        var a' := if a == i then j else if a == j then i else a;
        var b' := if b == i then j else if b == j then i else b;
        assert t[a] == s[a'] && t[b] == s[b'] && a' != b';
        assert s[if a' < b' then a' else b'].item != s[if a' < b' then b' else a'].item;
      }
    }
  }

  lemma {:induction false} UpKeeps<T>(s: seq<Entry<T>>, j: nat)
    requires j < |s|
    ensures multiset(Up(s, j)) == multiset(s)
    ensures Distinct(s) ==> Distinct(Up(s, j))
    ensures forall k | j < k < |s| :: Up(s, j)[k] == s[k]
    decreases j
  {
    if j == 0 || s[j].key >= s[Parent(j)].key {
    } else {
      SwapKeeps(s, Parent(j), j);
      UpKeeps(Swap(s, Parent(j), j), Parent(j));
    }
  }

  lemma {:induction false} DownKeeps<T>(s: seq<Entry<T>>, i: nat, n: nat)
    requires n <= |s|
    ensures multiset(Down(s, i, n)) == multiset(s)
    ensures Distinct(s) ==> Distinct(Down(s, i, n))
    ensures forall k | n <= k < |s| :: Down(s, i, n)[k] == s[k]
    decreases n - i
  {
    if !Sinks(s, i, n) {
    } else {
      var c := LesserChild(s, i, n);
      SwapKeeps(s, i, c);
      DownKeeps(Swap(s, i, c), c, n);
    }
  }

  /** Cutting the last entry off a sequence removes just that entry. */
  lemma CutLast<T>(s: seq<Entry<T>>)
    requires s != []
    ensures multiset(s[..|s| - 1]) == multiset(s) - multiset{s[|s| - 1]}
    ensures Distinct(s) ==> Distinct(s[..|s| - 1])
  {
    assert s == s[..|s| - 1] + [s[|s| - 1]];
  }

  lemma PushKeeps<T>(s: seq<Entry<T>>, e: Entry<T>)
    ensures multiset(Push(s, e)) == multiset(s) + multiset{e}
    ensures Distinct(s) && e.item !in Items(s) ==> Distinct(Push(s, e))
  {
    UpKeeps(s + [e], |s|);
    if Distinct(s) && e.item !in Items(s) {
      var t := s + [e];
      forall a, b | 0 <= a < b < |t| ensures t[a].item != t[b].item {
        assert t[a] in s && t[a].item in Items(s);
      }
    }
  }

  lemma SettleKeeps<T>(s: seq<Entry<T>>, i: nat, n: nat)
    requires i < n <= |s|
    ensures multiset(Settle(s, i, n)) == multiset(s)
    ensures Distinct(s) ==> Distinct(Settle(s, i, n))
    ensures forall k | n <= k < |s| :: Settle(s, i, n)[k] == s[k]
  {
    DownKeeps(s, i, n);
    UpKeeps(s, i);
  }

  lemma RemoveAtKeeps<T>(s: seq<Entry<T>>, i: nat)
    requires i < |s|
    ensures multiset(RemoveAt(s, i)) == multiset(s) - multiset{s[i]}
    ensures Distinct(s) ==> Distinct(RemoveAt(s, i))
  {
    var n := |s| - 1;
    if i == n {
      CutLast(s);
    } else {
      var t := Swap(s, i, n);
      SwapKeeps(s, i, n);
      SettleKeeps(t, i, n);
      CutLast(Settle(t, i, n));
    }
  }

  /** Popping is removing the root. */
  lemma PopIsRemoveRoot<T>(s: seq<Entry<T>>)
    requires s != []
    ensures PopRest(s) == RemoveAt(s, 0)
  {
  }

  // ---- order ----

  lemma {:induction false} UpOrders<T>(s: seq<Entry<T>>, j: nat, n: nat)
    requires j < n <= |s|
    requires forall i | 0 < i < n && i != j :: s[Parent(i)].key <= s[i].key
    requires forall i | 0 < i < n && Parent(i) == j && 0 < j :: s[Parent(j)].key <= s[i].key
    ensures OrderedTo(Up(s, j), n)
    decreases j
  {
    if j == 0 || s[j].key >= s[Parent(j)].key {
    } else {
      var p := Parent(j);
      var t := Swap(s, p, j);
      forall i | 0 < i < n && i != p ensures t[Parent(i)].key <= t[i].key {
        assert Parent(i) < i;
        assert 0 < p ==> s[Parent(p)].key <= s[p].key;
      }
      forall i | 0 < i < n && Parent(i) == p && 0 < p ensures t[Parent(p)].key <= t[i].key {
        assert s[Parent(p)].key <= s[p].key;
        assert i != j ==> s[p].key <= s[i].key;
      }
      UpOrders(t, p, n);
    }
  }

  lemma {:induction false} DownOrders<T>(s: seq<Entry<T>>, i: nat, n: nat)
    requires n <= |s|
    requires forall c | 0 < c < n && Parent(c) != i :: s[Parent(c)].key <= s[c].key
    requires forall c | 0 < c < n && Parent(c) == i && 0 < i :: s[Parent(i)].key <= s[c].key
    ensures OrderedTo(Down(s, i, n), n)
    decreases n - i
  {
    if !Sinks(s, i, n) {
      forall c | 0 < c < n ensures s[Parent(c)].key <= s[c].key {
        if Parent(c) == i { assert s[LesserChild(s, i, n)].key <= s[c].key; }
      }
    } else {
      var c := LesserChild(s, i, n);
      var t := Swap(s, i, c);
      forall d | 0 < d < n && Parent(d) != c ensures t[Parent(d)].key <= t[d].key {
        assert Parent(d) < d;
        if d == i { assert s[Parent(i)].key <= s[c].key; }
      }
      forall d | 0 < d < n && Parent(d) == c && 0 < c ensures t[Parent(c)].key <= t[d].key {
        assert s[Parent(d)].key <= s[d].key;
      }
      DownOrders(t, c, n);
    }
  }

  lemma PushOrders<T>(s: seq<Entry<T>>, e: Entry<T>)
    requires Ordered(s)
    ensures Ordered(Push(s, e))
  {
    var t := s + [e];
    forall i | 0 < i < |t| && i != |s| ensures t[Parent(i)].key <= t[i].key {
      assert s[Parent(i)].key <= s[i].key;
    }
    UpOrders(t, |s|, |t|);
  }

  /** Every edge holds except those that touch i, and i's children are not less than i's parent. */
  ghost predicate OrderedAround<T>(s: seq<Entry<T>>, i: nat, n: nat)
    requires i < n <= |s|
  {
    && (forall c | 0 < c < n && Parent(c) != i && c != i :: s[Parent(c)].key <= s[c].key)
    && (forall c | 0 < c < n && Parent(c) == i && 0 < i :: s[Parent(i)].key <= s[c].key)
  }

  lemma SettleOrders<T>(s: seq<Entry<T>>, i: nat, n: nat)
    requires i < n <= |s| && OrderedAround(s, i, n)
    ensures OrderedTo(Settle(s, i, n), n)
  {
    if Sinks(s, i, n) {
      var c := LesserChild(s, i, n);
      assert 0 < i ==> s[Parent(i)].key <= s[c].key;
      DownOrders(s, i, n);
    } else {
      forall c | 0 < c < n && c != i ensures s[Parent(c)].key <= s[c].key {
        if Parent(c) == i { assert s[LesserChild(s, i, n)].key <= s[c].key; }
      }
      UpOrders(s, i, n);
    }
  }

  lemma SwapLastAround<T>(s: seq<Entry<T>>, i: nat)
    requires Ordered(s) && i < |s| - 1
    ensures OrderedAround(Swap(s, i, |s| - 1), i, |s| - 1)
  {
    var n := |s| - 1;
    forall c | 0 < c < n && Parent(c) != i && c != i ensures s[Parent(c)].key <= s[c].key && Parent(c) < c {
    }
    forall c | 0 < c < n && Parent(c) == i && 0 < i ensures s[Parent(i)].key <= s[c].key && Parent(i) < i {
      assert s[Parent(c)].key <= s[c].key && s[Parent(i)].key <= s[i].key;
    }
    hide Ordered;
  }

  lemma OrderedPrefix<T>(s: seq<Entry<T>>, n: nat)
    requires n <= |s| && OrderedTo(s, n)
    ensures Ordered(s[..n])
  {
    forall i | 0 < i < n ensures Parent(i) < i && s[Parent(i)].key <= s[i].key {
    }
    hide Parent;
  }

  lemma RemoveAtOrders<T>(s: seq<Entry<T>>, i: nat)
    requires Ordered(s) && i < |s|
    ensures Ordered(RemoveAt(s, i))
  {
    hide Parent, Swap, Settle;
    var n := |s| - 1;
    if i < n {
      SwapLastAround(s, i);
      hide OrderedAround, Ordered, OrderedTo;
      SettleOrders(Swap(s, i, n), i, n);
      OrderedPrefix(Settle(Swap(s, i, n), i, n), n);
    } else {
      OrderedPrefix(s, n);
    }
  }

  /** The root of an ordered heap has the least key of all. */
  lemma {:induction false} RootLeast<T>(s: seq<Entry<T>>, i: nat)
    requires Ordered(s) && i < |s|
    ensures s[0].key <= s[i].key
    decreases i
  {
    if i != 0 {
      RootLeast(s, Parent(i));
    }
  }

  /** In an ordered heap nothing moves: entries with equal keys keep their places. */
  lemma NothingMoves<T>(s: seq<Entry<T>>, i: nat)
    requires Ordered(s) && i < |s|
    ensures Up(s, i) == s && !Sinks(s, i, |s|) && Down(s, i, |s|) == s
  {
    assert i > 0 ==> s[Parent(i)].key <= s[i].key;
    if 2 * i + 1 < |s| {
      assert s[Parent(LesserChild(s, i, |s|))].key <= s[LesserChild(s, i, |s|)].key;
    }
  }

  lemma RootLeastIn<T>(s: seq<Entry<T>>, e: Entry<T>)
    requires Ordered(s) && e in s
    ensures s[0].key <= e.key
  {
    var k :| 0 <= k < |s| && s[k] == e;
    RootLeast(s, k);
  }

  // ---- the root stays where it is unless it is removed or undercut ----

  lemma {:induction false} UpKeepsRoot<T>(s: seq<Entry<T>>, j: nat)
    requires j < |s| && s[0].key <= s[j].key
    ensures Up(s, j)[0] == s[0]
    decreases j
  {
    if j == 0 || s[j].key >= s[Parent(j)].key {
    } else {
      UpKeepsRoot(Swap(s, Parent(j), j), Parent(j));
    }
  }

  lemma {:induction false} DownKeepsRoot<T>(s: seq<Entry<T>>, i: nat, n: nat)
    requires 0 < i && n <= |s| && s != []
    ensures Down(s, i, n)[0] == s[0]
    decreases n - i
  {
    if Sinks(s, i, n) {
      var c := LesserChild(s, i, n);
      DownKeepsRoot(Swap(s, i, c), c, n);
    }
  }

  lemma PushKeepsRoot<T>(s: seq<Entry<T>>, e: Entry<T>)
    requires s != [] && s[0].key <= e.key
    ensures Push(s, e)[0] == s[0]
  {
    UpKeepsRoot(s + [e], |s|);
  }

  lemma RemoveAtKeepsRoot<T>(s: seq<Entry<T>>, i: nat)
    requires Ordered(s) && 0 < i < |s|
    ensures RemoveAt(s, i)[0] == s[0]
  {
    var n := |s| - 1;
    if i < n {
      var t := Swap(s, i, n);
      RootLeast(s, n);
      DownKeepsRoot(t, i, n);
      UpKeepsRoot(t, i);
    }
  }

  ghost predicate SortedByKey<T>(s: seq<Entry<T>>) {
    forall i, j | 0 <= i < j < |s| :: s[i].key <= s[j].key
  }

  /** The root of an ordered heap, and what popping it leaves. */
  lemma PopSpec<T>(s: seq<Entry<T>>)
    requires Ordered(s) && s != []
    ensures Ordered(PopRest(s))
    ensures multiset(s) == multiset{s[0]} + multiset(PopRest(s))
    ensures forall e | e in PopRest(s) :: s[0].key <= e.key
  {
    PopIsRemoveRoot(s);
    RemoveAtOrders(s, 0);
    RemoveAtKeeps(s, 0);
    forall e | e in PopRest(s) ensures s[0].key <= e.key {
      assert e in multiset(PopRest(s)) && e in multiset(s);
      RootLeastIn(s, e);
    }
  }

  /** Draining sorts: the popped keys never decrease, and they are a permutation of the heap. */
  lemma {:induction false} DrainSorts<T>(s: seq<Entry<T>>)
    requires Ordered(s)
    ensures multiset(Drain(s)) == multiset(s)
    ensures SortedByKey(Drain(s))
    decreases |s|
  {
    if s == [] {
    } else {
      var rest := PopRest(s);
      PopSpec(s);
      DrainSorts(rest);
      Prepend(s[0], rest, Drain(rest));
    }
  }

  lemma Prepend<T>(e: Entry<T>, rest: seq<Entry<T>>, d: seq<Entry<T>>)
    requires forall x | x in rest :: e.key <= x.key
    requires multiset(d) == multiset(rest) && SortedByKey(d)
    ensures SortedByKey([e] + d) && multiset([e] + d) == multiset{e} + multiset(rest)
  {
    forall j | 0 <= j < |d| ensures e.key <= d[j].key {
      assert d[j] in multiset(d) && d[j] in multiset(rest);
    }
  }

  // ---- what push and remove do to the set of entries ----

  lemma PushElements<T>(s: seq<Entry<T>>, e: Entry<T>)
    ensures Elements(Push(s, e)) == Elements(s) + {e}
    ensures Items(Push(s, e)) == Items(s) + {e.item}
  {
    PushKeeps(s, e);
    SameElements(Push(s, e), s + [e]);
  }

  lemma RemoveAtElements<T>(s: seq<Entry<T>>, i: nat)
    requires Distinct(s) && i < |s|
    ensures Elements(RemoveAt(s, i)) == Elements(s) - {s[i]}
    ensures Items(RemoveAt(s, i)) == Items(s) - {s[i].item}
  {
    var r := RemoveAt(s, i);
    RemoveAtKeeps(s, i);
    OnceOnly(s, i);
    forall e ensures e in r <==> e in s && e != s[i] {
      assert e in r <==> multiset(r)[e] > 0;
      assert e in s <==> multiset(s)[e] > 0;
    }
    assert Elements(r) == Elements(s) - {s[i]};
    forall e | e in s && e != s[i] ensures e.item != s[i].item {
      var k :| 0 <= k < |s| && s[k] == e;
    }
    ItemsOfElements(r);
    ItemsOfElements(s);
  }

  lemma ItemsOfElements<T>(s: seq<Entry<T>>)
    ensures Items(s) == set e | e in Elements(s) :: e.item
  {
  }

  lemma OnceOnly<T>(s: seq<Entry<T>>, i: nat)
    requires Distinct(s) && i < |s|
    ensures multiset(s)[s[i]] == 1
  {
    assert s == s[..i] + [s[i]] + s[i + 1..];
    assert s[i] !in s[..i] && s[i] !in s[i + 1..];
  }

  lemma SameElements<T>(s: seq<Entry<T>>, t: seq<Entry<T>>)
    requires multiset(s) == multiset(t)
    ensures Elements(s) == Elements(t) && Items(s) == Items(t)
  {
    assert forall e :: e in s <==> e in multiset(s);
    assert forall e :: e in t <==> e in multiset(t);
    assert Elements(s) == Elements(t);
    assert Items(s) == (set e | e in Elements(s) :: e.item);
    assert Items(t) == (set e | e in Elements(t) :: e.item);
  }

  // ---- by item: where it is, taking it out, putting it in ----

  /** The place of an item, -1 when it is not there: what the back-pointers hold. */
  function IndexOf<T(==)>(h: seq<Entry<T>>, x: T): (i: int)
    ensures -1 <= i < |h|
    ensures i >= 0 ==> h[i].item == x
    ensures i == -1 <==> x !in Items(h)
    decreases |h|
  {
    if h == [] then -1
    else if h[|h| - 1].item == x then |h| - 1
    else
      assert h == h[..|h| - 1] + [h[|h| - 1]];
      IndexOf(h[..|h| - 1], x)
  }

  /** Removal guarded by the back-pointer, as both heaps do it. */
  function RemoveItem<T(==)>(h: seq<Entry<T>>, x: T): seq<Entry<T>> {
    if IndexOf(h, x) == -1 then h else RemoveAt(h, IndexOf(h, x))
  }

  lemma PlaceIsIndex<T>(h: seq<Entry<T>>, i: nat)
    requires Distinct(h) && i < |h|
    ensures IndexOf(h, h[i].item) == i
  {
    assert h[i] in h && h[i].item in Items(h);
    var j := IndexOf(h, h[i].item);
    assert j != -1 && h[j].item == h[i].item;
  }

  /** r is a proper heap with the entries of h except those for x. */
  ghost predicate Without<T(!new)>(h: seq<Entry<T>>, x: T, r: seq<Entry<T>>) {
    && Ordered(r) && Distinct(r)
    && (forall e :: e in r <==> e in h && e.item != x)
  }

  /** r is a proper heap with the entries of h, where e's item has just the entry e. */
  ghost predicate Queued<T(!new)>(h: seq<Entry<T>>, e: Entry<T>, r: seq<Entry<T>>) {
    && Ordered(r) && Distinct(r)
    && (forall d :: d in r <==> (d in h && d.item != e.item) || d == e)
  }

  lemma RemoveItemSpec<T(!new)>(h: seq<Entry<T>>, x: T)
    requires Ordered(h) && Distinct(h)
    ensures Without(h, x, RemoveItem(h, x))
  {
    var i := IndexOf(h, x);
    if i == -1 {
      forall e | e in h ensures e.item != x {
        assert e.item in Items(h);
      }
    } else {
      RemoveAtOrders(h, i);
      RemoveAtKeeps(h, i);
      RemoveAtElements(h, i);
      var r := RemoveAt(h, i);
      forall e ensures e in r <==> e in h && e.item != x {
        assert e in r <==> e in Elements(r);
        if e in h && e.item == x {
          var k :| 0 <= k < |h| && h[k] == e;
        }
      }
    }
  }

  lemma PushItemSpec<T(!new)>(h: seq<Entry<T>>, e: Entry<T>)
    requires Ordered(h) && Distinct(h) && forall d | d in h :: d.item != e.item
    ensures Queued(h, e, Push(h, e))
  {
    PushOrders(h, e);
    PushKeeps(h, e);
    PushElements(h, e);
    forall d ensures d in Push(h, e) <==> d in h || d == e {
      assert d in Push(h, e) <==> d in Elements(Push(h, e));
    }
  }

  lemma RequeueItemSpec<T(!new)>(h: seq<Entry<T>>, e: Entry<T>)
    requires Ordered(h) && Distinct(h)
    ensures Queued(h, e, Push(RemoveItem(h, e.item), e))
  {
    hide Push, RemoveItem, OrderedTo, Distinct;
    RemoveItemSpec(h, e.item);
    PushItemSpec(RemoveItem(h, e.item), e);
  }
}

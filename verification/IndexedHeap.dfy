/**
 The heap that is updated in place, with back-pointers: every queued item knows its place.

 `timeHeapImpl` (filter timeouts) and `dialQueueImpl` (dial tasks) implement the same five
 methods over a slice of pointers; container/heap drives both. `View` is the slice as keyed
 entries, and every method computes on it the function of `ContainerHeap` of the same name.
 */
module IndexedHeap {
  import opened ContainerHeap

  /** The index of an item that is not queued. */
  const NO_INDEX_IN_HEAP := -1

  /** A heap element: `filterBase` with its expiry, or `DialTask` with its priority. */
  class Item<T> {
    const payload: T
    var key: int
    var index: int

    constructor (payload: T, key: int, index: int)
      ensures this.payload == payload && this.key == key && this.index == index
    {
      this.payload := payload;
      this.key := key;
      this.index := index;
    }
  }

  class MinHeap<T> {
    var elems: seq<Item<T>>

    constructor ()
      ensures elems == [] && Valid()
    {
      elems := [];
    }

    /** No element is queued twice, and each one's back-pointer is its place. */
    ghost predicate Valid()
      reads this, elems
    {
      && (forall i | 0 <= i < |elems| :: elems[i].index == i)
      && (forall i, j | 0 <= i < j < |elems| :: elems[i] != elems[j])
    }

    ghost function Members(): set<Item<T>>
      reads this
    {
      set x | x in elems
    }

    ghost function View(): (v: seq<Entry<T>>)
      reads this, elems
      ensures |v| == |elems|
    {
      seq(|elems|, i requires 0 <= i < |elems| reads this, elems => Entry(elems[i].payload, elems[i].key))
    }

    lemma ViewKeys()
      ensures forall i | 0 <= i < |elems| :: View()[i].key == elems[i].key
    {
    }

    method Swap(i: nat, j: nat)
      requires Valid() && i < |elems| && j < |elems|
      modifies this`elems, Members()`index
      ensures Valid() && |elems| == |old(elems)|
      ensures Members() == old(Members())
      ensures elems == old(elems)[i := old(elems)[j]][j := old(elems)[i]]
      ensures View() == ContainerHeap.Swap(old(View()), i, j)
    {
      elems := elems[i := elems[j]][j := elems[i]];
      elems[i].index := i;
      elems[j].index := j;
      assert Members() == old(Members()) by {
        forall k | 0 <= k < |old(elems)| ensures old(elems)[k] in elems {
          assert old(elems)[k] == elems[if k == i then j else if k == j then i else k];
        }
      }
    }

    method Up(j0: nat)
      requires Valid() && j0 < |elems|
      modifies this`elems, Members()`index
      ensures Valid() && |elems| == |old(elems)|
      ensures Members() == old(Members())
      ensures elems[j0 + 1..] == old(elems)[j0 + 1..]
      ensures View() == ContainerHeap.Up(old(View()), j0)
    {
      var j: nat := j0;
      while true
        invariant Valid() && |elems| == |old(elems)| && j <= j0
        invariant elems[j0 + 1..] == old(elems)[j0 + 1..]
        invariant Members() == old(Members())
        invariant ContainerHeap.Up(View(), j) == ContainerHeap.Up(old(View()), j0)
        decreases j
      {
        var i := Parent(j);
        if i == j || elems[j].key >= elems[i].key {
          break;
        }
        Swap(i, j);
        j := i;
      }
    }

    method Down(i0: nat, n: nat) returns (moved: bool)
      requires Valid() && i0 <= n <= |elems|
      modifies this`elems, Members()`index
      ensures Valid() && |elems| == |old(elems)|
      ensures Members() == old(Members())
      ensures elems[n..] == old(elems)[n..]
      ensures View() == ContainerHeap.Down(old(View()), i0, n)
      ensures moved == Sinks(old(View()), i0, n)
    {
      hide View, Members, Valid, ContainerHeap.Swap;
      var i: nat := i0;
      while true
        invariant Valid() && |elems| == |old(elems)| && i0 <= i <= n
        invariant elems[n..] == old(elems)[n..]
        invariant Members() == old(Members())
        invariant ContainerHeap.Down(View(), i, n) == ContainerHeap.Down(old(View()), i0, n)
        invariant if i == i0 then View() == old(View()) else Sinks(old(View()), i0, n)
        decreases n - i
      {
        var j1 := 2 * i + 1;
        if j1 >= n {
          break;
        }
        var j := j1;
        ViewKeys();
        if j1 + 1 < n && elems[j1 + 1].key < elems[j1].key {
          j := j1 + 1;
        }
        assert j == LesserChild(View(), i, n);
        if elems[j].key >= elems[i].key {
          break;
        }
        assert Sinks(View(), i, n);
        assert j < n;
        hide LesserChild;
        ghost var before, view := elems, View();
        Swap(i, j);
        assert elems[n..] == before[n..];
        assert ContainerHeap.Down(view, i, n) == ContainerHeap.Down(View(), j, n);
        i := j;
      }
      moved := i > i0;
    }

    /** The slice's own `Pop`: cut the last element off and clear its back-pointer. */
    method TakeLast() returns (x: Item<T>)
      requires Valid() && elems != []
      modifies this`elems, Members()`index
      ensures Valid()
      ensures x == old(elems[|elems| - 1]) && x.index == NO_INDEX_IN_HEAP
      ensures elems == old(elems)[..|old(elems)| - 1]
      ensures View() == old(View())[..|elems|]
      ensures Members() == old(Members()) - {x}
    {
      var n := |elems|;
      x := elems[n - 1];
      x.index := NO_INDEX_IN_HEAP;
      elems := elems[..n - 1];
    }

    method Push(x: Item<T>)
      requires Valid() && x !in elems
      modifies this`elems, Members()`index, x`index
      ensures Valid()
      ensures Members() == old(Members()) + {x}
      ensures View() == ContainerHeap.Push(old(View()), Entry(x.payload, x.key))
    {
      x.index := |elems|;
      elems := elems + [x];
      assert View() == old(View()) + [Entry(x.payload, x.key)];
      Up(|elems| - 1);
    }

    method Pop() returns (x: Item<T>)
      requires Valid() && elems != []
      modifies this`elems, Members()`index
      ensures Valid()
      ensures x == old(elems[0]) && x.index == NO_INDEX_IN_HEAP
      ensures Members() == old(Members()) - {x}
      ensures View() == PopRest(old(View()))
    {
      var n := |elems| - 1;
      Swap(0, n);
      var _ := Down(0, n);
      assert elems[n..][0] == old(elems)[0];
      DownKeeps(ContainerHeap.Swap(old(View()), 0, n), 0, n);
      x := TakeLast();
    }

    method Remove(i: nat) returns (x: Item<T>)
      requires Valid() && i < |elems|
      modifies this`elems, Members()`index
      ensures Valid()
      ensures x == old(elems[i]) && x.index == NO_INDEX_IN_HEAP
      ensures Members() == old(Members()) - {x}
      ensures View() == RemoveAt(old(View()), i)
    {
      hide Settle;
      var n := |elems| - 1;
      if n != i {
        Swap(i, n);
        SettleAt(i, n);
        assert elems[n..][0] == old(elems)[i];
      }
      x := TakeLast();
    }

    /** The part of `Remove` between its swap and its `Pop`. */
    method SettleAt(i: nat, n: nat)
      requires Valid() && i < n <= |elems|
      modifies this`elems, Members()`index
      ensures Valid() && |elems| == |old(elems)|
      ensures Members() == old(Members())
      ensures elems[n..] == old(elems)[n..]
      ensures View() == Settle(old(View()), i, n)
    {
      var moved := Down(i, n);
      if !moved {
        Up(i);
        assert elems[n..] == elems[i + 1..][n - i - 1..];
      }
    }
  }
}

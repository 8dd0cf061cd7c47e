/**
 The dial queue updated in place (core/network/dial/dial_queue.go, core/network/dial/heap.go).

 Each method is one critical section and computes the function of `DialSpec` that it names in its
 postcondition. Waiting for work and the notification that ends it are not part of this model.
 */
module DialQueue {
  import opened ContainerHeap
  import opened IndexedHeap
  import DialSpec

  type Peer = DialSpec.Peer
  type Task = DialSpec.Task

  class DialQueue {
    const heap: MinHeap<Task>
    var tasks: map<Peer, Item<Task>>

    /** How many tasks were made: the identity of the next one. */
    var made: nat

    /** Every task ever made. */
    ghost var known: map<nat, Item<Task>>

    ghost predicate Valid()
      reads this, heap, known.Values
    {
      && heap.Members() <= known.Values
      && heap.Valid()
      && (forall t | t in known :: t < made && known[t].payload.tid == t)
      && (forall t | t in known && known[t] !in heap.Members() :: known[t].index == NO_INDEX_IN_HEAP)
      && (forall p | p in tasks :: tasks[p] in known.Values && tasks[p].payload.peer == p)
    }

    ghost function Abs(): DialSpec.Queue
      requires Valid()
      reads this, heap, known.Values
    {
      DialSpec.Queue(heap.View(), map p | p in tasks :: tasks[p].payload)
    }

    constructor ()
      ensures Valid() && fresh(heap) && Abs() == DialSpec.Queue([], map[]) && made == 0 && known == map[]
    {
      heap := new MinHeap();
      tasks := map[];
      made := 0;
      known := map[];
    }

    /** A task's back-pointer is where the specification finds it: not negative just when queued. */
    lemma IndexIsPlace(x: Item<Task>)
      requires Valid() && x in known.Values
      ensures Distinct(heap.View())
      ensures x.index == IndexOf(heap.View(), x.payload)
      ensures x in heap.Members() <==> x.index != NO_INDEX_IN_HEAP
    {
      var h := heap.View();
      forall i | 0 <= i < |h| ensures heap.elems[i] in known.Values {
        assert heap.elems[i] in heap.Members();
      }
      forall i, j | 0 <= i < j < |h| ensures h[i].item != h[j].item {
        assert heap.elems[i] != heap.elems[j];
        assert heap.elems[i] in known.Values && heap.elems[j] in known.Values;
      }
      if x in heap.Members() {
        var i :| 0 <= i < |h| && heap.elems[i] == x;
        PlaceIsIndex(h, i);
      } else {
        forall e | e in h ensures e.item != x.payload {
          var i :| 0 <= i < |h| && h[i] == e;
          assert heap.elems[i] in known.Values;
        }
      }
    }

    method AddTask(peer: Peer, priority: nat)
      requires Valid()
      modifies `tasks, `made, `known, heap`elems, known.Values`index
      ensures Valid() && made == old(made) + 1
      ensures Abs() == DialSpec.AddTask(old(Abs()), DialSpec.Task(old(made), peer), priority)
    {
      hide Push;
      var x := Register(peer, priority);
      heap.Push(x);
    }

    /** A new task in the map, not yet queued. */
    method Register(peer: Peer, priority: nat) returns (x: Item<Task>)
      requires Valid()
      modifies `tasks, `made, `known
      ensures fresh(x) && x.key == priority && x.payload == DialSpec.Task(old(made), peer)
      ensures made == old(made) + 1 && x !in heap.Members() && known.Values == old(known.Values) + {x}
      ensures heap.Valid() && heap.View() == old(heap.View())
      ensures Valid() && Abs() == old(Abs()).(tasks := old(Abs()).tasks[peer := x.payload])
    {
      hide Abs;
      x := new Item(DialSpec.Task(made, peer), priority, NO_INDEX_IN_HEAP);
      tasks := tasks[peer := x];
      known := known[made := x];
      made := made + 1;
      ValuesGrow(x);
      Registered(x);
    }

    twostate lemma Registered(new x: Item<Task>)
      requires old(Valid()) && unchanged(heap) && unchanged(old(known.Values))
      requires x.payload.tid == old(made) && made == old(made) + 1
      requires known == old(known)[x.payload.tid := x] && tasks == old(tasks)[x.payload.peer := x]
      requires known.Values == old(known.Values) + {x} && x !in old(known.Values)
      requires x.index == NO_INDEX_IN_HEAP
      ensures Valid() && x !in heap.Members() && heap.View() == old(heap.View())
      ensures Abs() == old(Abs()).(tasks := old(Abs()).tasks[x.payload.peer := x.payload])
    {
    }

    twostate lemma ValuesGrow(new x: Item<Task>)
      requires x.payload.tid !in old(known) && known == old(known)[x.payload.tid := x]
      ensures known.Values == old(known.Values) + {x}
    {
      forall t | t in old(known) ensures old(known)[t] in known.Values { assert known[t] == old(known)[t]; }
      assert known[x.payload.tid] == x;
    }

    method PopTaskImpl() returns (x: Item?<Task>)
      requires Valid()
      modifies heap`elems, known.Values`index
      ensures Valid() && Abs() == DialSpec.PopTask(old(Abs()))
      ensures match DialSpec.PopResult(old(Abs()))
              case Nothing => x == null
              case Popped(e) =>
                x != null && x.payload == e.item && x.key == e.key && x.index == NO_INDEX_IN_HEAP
    {
      hide PopRest;
      x := null;
      if |heap.elems| != 0 {
        assert heap.elems[0] in heap.Members();
        x := heap.Pop();
      }
    }

    method DeleteTask(peer: Peer)
      requires Valid()
      modifies `tasks, heap`elems, known.Values`index
      ensures Valid() && Abs() == DialSpec.DeleteTask(old(Abs()), peer)
    {
      hide RemoveItem, IndexOf;
      if peer in tasks {
        assert tasks[peer].payload == Abs().tasks[peer];
        var x := tasks[peer];
        tasks := tasks - {peer};
        Unmapped(peer);
        hide Valid, Abs;
        Unqueue(x);
      }
    }

    twostate lemma Unmapped(peer: Peer)
      requires old(Valid()) && tasks == old(tasks) - {peer} && known == old(known) && made == old(made)
      requires unchanged(heap) && unchanged(known.Values)
      ensures Valid() && Abs() == old(Abs()).(tasks := old(Abs()).tasks - {peer})
    {
    }

    /** A task with an index is taken out of the heap. */
    method Unqueue(x: Item<Task>)
      requires Valid() && x in known.Values
      modifies heap`elems, known.Values`index
      ensures Valid() && Abs() == old(Abs()).(heap := RemoveItem(old(Abs()).heap, x.payload))
    {
      hide RemoveAt, IndexOf;
      IndexIsPlace(x);
      if x.index >= 0 {
        var _ := heap.Remove(x.index);
      }
    }
  }
}

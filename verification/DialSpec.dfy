/**
 The dial queue as functions on its state, and runs of them (core/network/dial).

 A task's identity is its pointer; here that is the number of tasks made before it. Adding a peer
 again makes a new task and leaves the older one in the heap; popped tasks stay in the map.
 */
module DialSpec {
  import opened ContainerHeap

  type Peer = string

  datatype Task = Task(tid: nat, peer: Peer)

  datatype Queue = Queue(heap: seq<Entry<Task>>, tasks: map<Peer, Task>)

  datatype Popped = Nothing | Popped(entry: Entry<Task>)

  function AddTask(q: Queue, t: Task, priority: nat): Queue {
    Queue(Push(q.heap, Entry(t, priority)), q.tasks[t.peer := t])
  }

  function PopResult(q: Queue): Popped {
    if q.heap == [] then Nothing else Popped(q.heap[0])
  }

  function PopTask(q: Queue): Queue {
    if q.heap == [] then q else q.(heap := PopRest(q.heap))
  }

  /** A task that has been popped has no place in the heap and is only unmapped. */
  function DeleteTask(q: Queue, peer: Peer): Queue {
    if peer !in q.tasks then q
    else Queue(RemoveItem(q.heap, q.tasks[peer]), q.tasks - {peer})
  }

  // ---- runs ----

  /** The queue, how many tasks were made, and where every entry ever queued has gone. */
  datatype World = World(
    q: Queue, next: nat, added: multiset<Entry<Task>>, popped: seq<Entry<Task>>, deleted: multiset<Entry<Task>>)

  datatype Op = Add(peer: Peer, priority: nat) | Pop | Delete(peer: Peer)

  function Init(): World {
    World(Queue([], map[]), 0, multiset{}, [], multiset{})
  }

  function Step(w: World, op: Op): World {
    match op
    case Add(peer, priority) =>
      var t := Task(w.next, peer);
      w.(q := AddTask(w.q, t, priority), next := w.next + 1, added := w.added + multiset{Entry(t, priority)})
    case Pop =>
      (match PopResult(w.q)
       case Nothing => w
       case Popped(e) => w.(q := PopTask(w.q), popped := w.popped + [e]))
    case Delete(peer) =>
      w.(q := DeleteTask(w.q, peer), deleted := w.deleted + Dropped(w.q, peer))
  }

  /** The entry that deleting a peer takes out of the heap, if any. */
  function Dropped(q: Queue, peer: Peer): multiset<Entry<Task>> {
    if peer in q.tasks && IndexOf(q.heap, q.tasks[peer]) != -1
    then multiset{q.heap[IndexOf(q.heap, q.tasks[peer])]}
    else multiset{}
  }

  function Run(w: World, ops: seq<Op>): World
    decreases |ops|
  {
    if ops == [] then w else Run(Step(w, ops[0]), ops[1..])
  }

  ghost predicate WasPopped(w: World, t: Task) {
    exists e :: e in w.popped && e.item == t
  }

  ghost predicate Inv(w: World) {
    && Ordered(w.q.heap) && Distinct(w.q.heap)
    && (forall e | e in w.q.heap :: e.item.tid < w.next && !WasPopped(w, e.item))
    && (forall e | e in w.popped :: e.item.tid < w.next)
    && (forall p | p in w.q.tasks ::
          && w.q.tasks[p].peer == p
          && w.q.tasks[p].tid < w.next
          && ((exists e :: e in w.q.heap && e.item == w.q.tasks[p]) || WasPopped(w, w.q.tasks[p])))
    && w.added == multiset(w.q.heap) + multiset(w.popped) + w.deleted
  }

  lemma AddKeeps(w: World, peer: Peer, priority: nat)
    requires Inv(w)
    ensures Inv(Step(w, Add(peer, priority)))
  {
    hide Push, OrderedTo, Distinct;
    var e0 := Entry(Task(w.next, peer), priority);
    var w' := Step(w, Add(peer, priority));
    PushItemSpec(w.q.heap, e0);
    PushKeeps(w.q.heap, e0);
    forall p | p in w'.q.tasks
      ensures (exists e :: e in w'.q.heap && e.item == w'.q.tasks[p]) || WasPopped(w', w'.q.tasks[p])
    {
      if p == peer {
        assert e0 in w'.q.heap;
      } else if e :| e in w.q.heap && e.item == w.q.tasks[p] {
        assert e in w'.q.heap;
      }
    }
  }

  lemma PopKeeps(w: World)
    requires Inv(w) && w.q.heap != []
    ensures Inv(Step(w, Pop))
    ensures Without(w.q.heap, w.q.heap[0].item, Step(w, Pop).q.heap)
  {
    hide OrderedTo, Distinct, PopRest, RemoveItem;
    var h := w.q.heap;
    var w' := Step(w, Pop);
    PopOfRoot(h);
    assert h[0] in h && w'.popped == w.popped + [h[0]];
    forall e | e in w'.q.heap ensures !WasPopped(w', e.item) {
      assert e in h;
    }
    forall p | p in w'.q.tasks
      ensures (exists e :: e in w'.q.heap && e.item == w'.q.tasks[p]) || WasPopped(w', w'.q.tasks[p])
    {
      if e :| e in h && e.item == w.q.tasks[p] {
        assert e in w'.q.heap || h[0].item == e.item;
        assert h[0] in w'.popped;
      } else {
        var e :| e in w.popped && e.item == w.q.tasks[p];
        assert e in w'.popped;
      }
    }
  }

  /** Popping an ordered heap without duplicates takes out the root, and nothing else. */
  lemma PopOfRoot(h: seq<Entry<Task>>)
    requires Ordered(h) && Distinct(h) && h != []
    ensures Without(h, h[0].item, PopRest(h))
    ensures multiset(h) == multiset(PopRest(h)) + multiset{h[0]}
    ensures forall e | e in h :: h[0].key <= e.key
  {
    PlaceIsIndex(h, 0);
    PopIsRemoveRoot(h);
    RemoveItemSpec(h, h[0].item);
    PopSpec(h);
    forall e | e in h ensures h[0].key <= e.key {
      RootLeastIn(h, e);
    }
  }

  lemma DeleteKeeps(w: World, peer: Peer)
    requires Inv(w)
    ensures Inv(Step(w, Delete(peer)))
    ensures peer in w.q.tasks ==> Without(w.q.heap, w.q.tasks[peer], Step(w, Delete(peer)).q.heap)
  {
    hide OrderedTo, Distinct, RemoveItem, Dropped;
    var w' := Step(w, Delete(peer));
    DropIsRemoved(w.q, peer);
    if peer in w.q.tasks {
      var h := w.q.heap;
      RemoveItemSpec(h, w.q.tasks[peer]);
      forall p | p in w'.q.tasks
        ensures (exists e :: e in w'.q.heap && e.item == w'.q.tasks[p]) || WasPopped(w', w'.q.tasks[p])
      {
        if e :| e in h && e.item == w.q.tasks[p] {
          assert e in w'.q.heap;
        }
      }
    }
  }

  lemma DropIsRemoved(q: Queue, peer: Peer)
    ensures multiset(q.heap) == multiset(DeleteTask(q, peer).heap) + Dropped(q, peer)
    ensures peer !in q.tasks ==> Dropped(q, peer) == multiset{}
  {
    if peer in q.tasks && IndexOf(q.heap, q.tasks[peer]) != -1 {
      var i := IndexOf(q.heap, q.tasks[peer]);
      RemoveAtKeeps(q.heap, i);
      assert q.heap[i] in q.heap;
    }
  }

  lemma StepKeeps(w: World, op: Op)
    requires Inv(w)
    ensures Inv(Step(w, op))
  {
    match op
    case Add(peer, priority) => AddKeeps(w, peer, priority);
    case Pop => if w.q.heap != [] { PopKeeps(w); }
    case Delete(peer) => DeleteKeeps(w, peer);
  }

  lemma {:induction false} EveryRunKeeps(w: World, ops: seq<Op>)
    requires Inv(w)
    ensures Inv(Run(w, ops))
    decreases |ops|
  {
    if ops != [] {
      StepKeeps(w, ops[0]);
      EveryRunKeeps(Step(w, ops[0]), ops[1..]);
    }
  }

  /** A peer is mapped from its addition to its deletion, to the task of its latest addition; popping
      keeps the mapping. */
  lemma MappedAfter(w: World, op: Op, peer: Peer)
    ensures var tasks, tasks' := w.q.tasks, Step(w, op).q.tasks;
            && (peer in tasks' <==> (op.Add? && op.peer == peer) || (peer in tasks && op != Delete(peer)))
            && (peer in tasks' ==>
                  tasks'[peer] == if op.Add? && op.peer == peer then Task(w.next, peer) else tasks[peer])
    ensures Step(w, op).next == w.next + if op.Add? then 1 else 0
  {
    hide Push, PopRest, RemoveItem;
  }

  /** What a step does to the heap: an addition queues one entry under its own priority, a pop takes out
      and hands out a least one, a deletion takes out the one of the mapped task. */
  lemma QueuedAfter(w: World, op: Op)
    requires Inv(w)
    ensures var h, w' := w.q.heap, Step(w, op);
            var h' := w'.q.heap;
            match op
            case Add(peer, priority) =>
              multiset(h') == multiset(h) + multiset{Entry(Task(w.next, peer), priority)} && w'.popped == w.popped
            case Pop =>
              if h == [] then w' == w
              else
                && multiset(h) == multiset(h') + multiset{h[0]} && w'.popped == w.popped + [h[0]]
                && forall e | e in h :: h[0].key <= e.key
            case Delete(peer) =>
              && w'.popped == w.popped
              && forall e :: e in h' <==> e in h && !(peer in w.q.tasks && e.item == w.q.tasks[peer])
  {
    hide Push, PopRest, RemoveItem, OrderedTo, Distinct, Dropped;
    match op
    case Add(peer, priority) => PushKeeps(w.q.heap, Entry(Task(w.next, peer), priority));
    case Pop => if w.q.heap != [] { PopOfRoot(w.q.heap); }
    case Delete(peer) => DeleteKeeps(w, peer);
  }

  /** From the start, re-adds included: a mapped task is at its place or has been popped, what was
      added is queued, popped or deleted, and a pop hands out a least entry. */
  lemma RunsAgree(ops: seq<Op>)
    ensures var w := Run(Init(), ops);
            && Ordered(w.q.heap) && Distinct(w.q.heap)
            && (forall p | p in w.q.tasks :: IndexOf(w.q.heap, w.q.tasks[p]) == -1 <==> WasPopped(w, w.q.tasks[p]))
            && w.added == multiset(w.q.heap) + multiset(w.popped) + w.deleted
            && (PopResult(w.q).Popped? ==> forall e | e in w.q.heap :: PopResult(w.q).entry.key <= e.key)
  {
    EveryRunKeeps(Init(), ops);
    var w := Run(Init(), ops);
    forall p | p in w.q.tasks ensures IndexOf(w.q.heap, w.q.tasks[p]) == -1 <==> WasPopped(w, w.q.tasks[p]) {
      var i := IndexOf(w.q.heap, w.q.tasks[p]);
      if i != -1 { assert w.q.heap[i] in w.q.heap; }
    }
    if w.q.heap != [] { PopOfRoot(w.q.heap); }
  }

  // ---- draining ----

  function Pops(n: nat): seq<Op> {
    seq(n, _ => Pop)
  }

  /** Popping until the queue is empty hands out its entries sorted by priority. */
  lemma DrainingSorts(w: World)
    requires Inv(w)
    ensures var w' := Run(w, Pops(|w.q.heap|));
            && w'.q.heap == []
            && w'.popped == w.popped + Drain(w.q.heap)
            && SortedByKey(Drain(w.q.heap)) && multiset(Drain(w.q.heap)) == multiset(w.q.heap)
  {
    DrainSorts(w.q.heap);
    Draining(w);
  }

  lemma {:induction false} Draining(w: World)
    ensures var w' := Run(w, Pops(|w.q.heap|));
            w'.q.heap == [] && w'.popped == w.popped + Drain(w.q.heap)
    decreases |w.q.heap|
  {
    hide PopRest;
    var h := w.q.heap;
    if h == [] {
      assert w.popped + [] == w.popped;
    } else {
      Draining(Step(w, Pop));
      assert Pops(|h|)[0] == Pop && Pops(|h|)[1..] == Pops(|h| - 1);
      assert w.popped + [h[0]] + Drain(PopRest(h)) == w.popped + Drain(h);
    }
  }

  // ---- when no peer is re-added while it is queued ----

  /** Tasks of this peer wait in the heap. */
  ghost predicate Waiting(q: Queue, peer: Peer) {
    exists e :: e in q.heap && e.item.peer == peer
  }

  /** The heap holds mapped tasks only: one to one with the tasks whose index is not negative. */
  ghost predicate Refined(q: Queue) {
    forall e | e in q.heap :: e.item.peer in q.tasks && q.tasks[e.item.peer] == e.item
  }

  ghost predicate NoReAdds(w: World, ops: seq<Op>)
    decreases |ops|
  {
    ops == [] || ((ops[0].Add? ==> !Waiting(w.q, ops[0].peer)) && NoReAdds(Step(w, ops[0]), ops[1..]))
  }

  /** Exactly the re-adds break it. */
  lemma AddRefinedIff(w: World, peer: Peer, priority: nat)
    requires Inv(w) && Refined(w.q)
    ensures Refined(Step(w, Add(peer, priority)).q) <==> !Waiting(w.q, peer)
  {
    hide Push, OrderedTo, Distinct;
    var e0 := Entry(Task(w.next, peer), priority);
    var q' := Step(w, Add(peer, priority)).q;
    PushItemSpec(w.q.heap, e0);
    if e :| e in w.q.heap && e.item.peer == peer {
      assert e in q'.heap && e.item != e0.item;
    }
  }

  lemma StepKeepsRefined(w: World, op: Op)
    requires Inv(w) && Refined(w.q) && (op.Add? ==> !Waiting(w.q, op.peer))
    ensures Refined(Step(w, op).q)
  {
    match op
    case Add(peer, priority) => AddRefinedIff(w, peer, priority);
    case Pop => if w.q.heap != [] { PopKeeps(w); }
    case Delete(peer) => DeleteKeeps(w, peer);
  }

  lemma {:induction false} RunKeepsRefined(w: World, ops: seq<Op>)
    requires Inv(w) && Refined(w.q) && NoReAdds(w, ops)
    ensures Inv(Run(w, ops)) && Refined(Run(w, ops).q)
    decreases |ops|
  {
    if ops != [] {
      StepKeeps(w, ops[0]);
      StepKeepsRefined(w, ops[0]);
      RunKeepsRefined(Step(w, ops[0]), ops[1..]);
    }
  }

  /** Then deleting a peer removes exactly its task and leaves every other one queued. */
  lemma DeleteIsExact(ops: seq<Op>, peer: Peer)
    requires NoReAdds(Init(), ops)
    ensures var q := Run(Init(), ops).q;
            var q' := Step(Run(Init(), ops), Delete(peer)).q;
            && Refined(q) && Refined(q')
            && (forall e :: e in q'.heap <==> e in q.heap && e.item.peer != peer)
            && q'.tasks == q.tasks - {peer}
  {
    hide RemoveItem, OrderedTo, Distinct;
    RunKeepsRefined(Init(), ops);
    DeleteOfRefined(Run(Init(), ops), peer);
  }

  lemma DeleteOfRefined(w: World, peer: Peer)
    requires Inv(w) && Refined(w.q)
    ensures var q' := Step(w, Delete(peer)).q;
            && Refined(q')
            && (forall e :: e in q'.heap <==> e in w.q.heap && e.item.peer != peer)
            && q'.tasks == w.q.tasks - {peer}
  {
    hide RemoveItem, OrderedTo, Distinct;
    DeleteKeeps(w, peer);
  }

  /** With re-adds, deleting a peer leaves none of its tasks queued exactly when the mapped one is
      the only one queued. */
  lemma DeleteClearsIff(w: World, peer: Peer)
    requires Inv(w)
    ensures !Waiting(Step(w, Delete(peer)).q, peer) <==>
            forall e | e in w.q.heap && e.item.peer == peer :: peer in w.q.tasks && w.q.tasks[peer] == e.item
  {
    hide RemoveItem, OrderedTo, Distinct;
    DeleteKeeps(w, peer);
    var q' := Step(w, Delete(peer)).q;
    if !Waiting(q', peer) {
      forall e | e in w.q.heap && e.item.peer == peer ensures peer in w.q.tasks && w.q.tasks[peer] == e.item {
        assert e !in q'.heap;
      }
    }
  }

  /** The case in which it fails: added again while queued, deleted, and still queued. */
  lemma ReAddOutlivesDelete(w: World, peer: Peer, priority: nat)
    requires Inv(w) && Waiting(w.q, peer)
    ensures Waiting(Run(w, [Add(peer, priority), Delete(peer)]).q, peer)
  {
    hide Push, RemoveItem, OrderedTo, Distinct;
    var w1 := Step(w, Add(peer, priority));
    var e :| e in w.q.heap && e.item.peer == peer;
    AddKeeps(w, peer, priority);
    PushItemSpec(w.q.heap, Entry(Task(w.next, peer), priority));
    assert e in w1.q.heap && w1.q.tasks[peer] != e.item;
    DeleteClearsIff(w1, peer);
    assert [Add(peer, priority), Delete(peer)][1..] == [Delete(peer)];
    assert Run(w1, [Delete(peer)]) == Step(w1, Delete(peer));
  }
}

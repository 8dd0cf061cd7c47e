/**
 What the gap inside `GetFilterChanges` costs.

 Between taking a filter's messages under the read lock and refreshing its timeout under the
 write lock (node_filter_manager.go:315-326) the filter may be uninstalled. The refresh then
 queues a filter that no longer exists, and the worker cannot get rid of it.
 */
module FilterGap {
  import opened ContainerHeap
  import opened NodeQueries
  import opened FilterSpec
  import opened FilterRuns

  /** Queued but not installed. */
  ghost predicate Stale(w: World, id: Id) {
    id !in w.s.filters && exists e :: e in w.s.timeouts && e.item == id
  }

  ghost predicate NoStale(w: World) {
    forall e | e in w.s.timeouts :: e.item in w.s.filters
  }

  /** Exactly one kind of step makes the first stale entry: a refresh of a filter that is gone. */
  lemma StaleArisesIff(w: World, op: Op)
    requires HeapInv(w) && NoStale(w)
    ensures NoStale(Step(w, op)) <==> !(op.Refresh? && Enabled(w, op) && op.id !in w.s.filters)
  {
    hide Push, RemoveItem, OrderedTo, Distinct;
    HeapAfter(w, op);
    var w' := Step(w, op);
    if op.Refresh? && Enabled(w, op) && op.id !in w.s.filters {
      assert Entry(op.id, w.now + w.timeout) in w'.s.timeouts;
    } else {
      forall e | e in w'.s.timeouts ensures e.item in w'.s.filters {
        assert e in w.s.timeouts || (Queues(w, op) && e.item == op.id);
      }
    }
  }

  /** A stale entry never leaves the heap. */
  lemma StaleStays(w: World, op: Op, id: Id)
    requires HeapInv(w) && Stale(w, id)
    ensures Stale(Step(w, op), id)
  {
    hide Push, RemoveItem, OrderedTo, Distinct;
    HeapAfter(w, op);
    var e :| e in w.s.timeouts && e.item == id;
    assert e in Step(w, op).s.timeouts || Entry(id, w.now + w.timeout) in Step(w, op).s.timeouts;
  }

  /** A stale entry at the root, and no reader about to refresh it. The clock bounds every expiry. */
  ghost predicate Blocked(w: World, id: Id) {
    && HeapInv(w) && Stale(w, id) && id !in w.inflight && id in w.hist
    && w.s.timeouts[0].item == id
    && (forall e | e in w.s.timeouts :: e.key <= w.now + w.timeout)
  }

  lemma RootAfter(w: World, op: Op, id: Id)
    requires Blocked(w, id)
    ensures |Step(w, op).s.timeouts| > 0 && Step(w, op).s.timeouts[0] == w.s.timeouts[0]
  {
    HeapStep(w, op);
    hide Step, Push, RemoveItem, OrderedTo, Distinct;
    var h := w.s.timeouts;
    assert h[0] in h;
    if Queues(w, op) {
      if !op.Install? { RemoveOtherKeepsRoot(h, op.id); }
      PushKeepsRoot(if op.Install? then h else RemoveItem(h, op.id), Entry(op.id, w.now + w.timeout));
    } else if Unqueues(w, op) {
      RemoveOtherKeepsRoot(h, op.id);
    }
  }

  lemma RemoveOtherKeepsRoot(h: seq<Entry<Id>>, id: Id)
    requires Ordered(h) && h != [] && h[0].item != id
    ensures RemoveItem(h, id) != [] && RemoveItem(h, id)[0] == h[0]
  {
    if IndexOf(h, id) != -1 {
      RemoveAtKeepsRoot(h, IndexOf(h, id));
    }
  }

  lemma StepKeepsBlocked(w: World, op: Op, id: Id)
    requires Blocked(w, id)
    ensures Blocked(Step(w, op), id)
  {
    hide Push, RemoveItem, OrderedTo, Distinct;
    StepKeepsHeap(w, op);
    StaleStays(w, op, id);
    RootAfter(w, op, id);
    HeapAfter(w, op);
    NotInflight(w, op, id);
  }

  lemma NotInflight(w: World, op: Op, id: Id)
    requires id !in w.inflight && id !in w.s.filters
    ensures id !in Step(w, op).inflight
  {
  }

  /** From then on the worker peeks the stale entry for ever: its timeouts remove nothing, and no
      filter is expired again, whatever the clients do. */
  lemma {:induction false} BlockedForever(w: World, ops: seq<Op>, id: Id)
    requires Blocked(w, id)
    ensures var r := Run(w, ops);
            && Blocked(r, id)
            && r.s.timeouts[0] == w.s.timeouts[0]
            && Step(r, Uninstall(r.s.timeouts[0].item)) == r
    decreases |ops|
  {
    if ops != [] {
      StepKeepsBlocked(w, ops[0], id);
      RootAfter(w, ops[0], id);
      BlockedForever(Step(w, ops[0]), ops[1..], id);
    }
  }

  /** And it does happen: one poll and one uninstall of the same filter, interleaved. */
  lemma GapBlocks(timeout: int, now: int, id: Id, q: NodeQuery)
    requires id != ""
    ensures Blocked(Run(Init(timeout, now), [Install(id, false, q), Take(id), Uninstall(id), Refresh(id)]), id)
  {
    hide Step;
    var w := Init(timeout, now);
    var ops := [Install(id, false, q), Take(id), Uninstall(id), Refresh(id)];
    var e := Entry(id, now + timeout);
    EveryRunKeepsHeap(w, ops);
    RunOfFour(w, ops[0], ops[1], ops[2], ops[3]);
    PolledThenUninstalled(timeout, now, id, q);
    RefreshedLate(Step(Step(Step(w, ops[0]), ops[1]), ops[2]), id);
    assert e in Run(w, ops).s.timeouts;
  }

  /** The filter is gone, and a reader still holds it. */
  lemma PolledThenUninstalled(timeout: int, now: int, id: Id, q: NodeQuery)
    requires id != ""
    ensures var w := Step(Step(Step(Init(timeout, now), Install(id, false, q)), Take(id)), Uninstall(id));
            && w.timeout == timeout && w.now == now && id in w.hist && w.inflight == multiset{id}
            && w.s == State(map[], [])
  {
    hide FlushedHistory, Stored;
    var f := Filter(false, q, now + timeout, []);
    var w1 := Step(Init(timeout, now), Install(id, false, q));
    assert w1.s == State(map[id := f], [Entry(id, now + timeout)]);
    var w2 := Step(w1, Take(id));
    assert w2.s == w1.s && w2.inflight == multiset{id};
    assert IndexOf(w2.s.timeouts, id) == 0 by { assert w2.s.timeouts[0].item == id; }
    assert map[id := f] - {id} == map[];
  }

  lemma RefreshedLate(w: World, id: Id)
    requires w.s == State(map[], []) && w.inflight == multiset{id}
    ensures var w' := Step(w, Refresh(id));
            && w'.s == State(map[], [Entry(id, w.now + w.timeout)])
            && w'.inflight == multiset{} && w'.hist == w.hist && w'.now == w.now && w'.timeout == w.timeout
  {
  }

  lemma RunOfFour(w: World, a: Op, b: Op, c: Op, d: Op)
    ensures Run(w, [a, b, c, d]) == Step(Step(Step(Step(w, a), b), c), d)
  {
    var w1 := Step(w, a);
    var w2 := Step(w1, b);
    var w3 := Step(w2, c);
    assert Run(w3, [d]) == Step(w3, d);
    assert [c, d][1..] == [d] && Run(w2, [c, d]) == Run(w3, [d]);
    assert [b, c, d][1..] == [c, d] && Run(w1, [b, c, d]) == Run(w2, [c, d]);
    assert [a, b, c, d][1..] == [b, c, d] && Run(w, [a, b, c, d]) == Run(w1, [b, c, d]);
  }
}

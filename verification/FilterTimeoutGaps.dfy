/**
 The gaps in the worker's loop, and a worker that is blocked (node_filter_manager.go:257-287).

 A notification reaches the worker only while it is parked. A filter that is refreshed between the
 peek and the select, or between the timer and the removal, is removed although it has not expired:
 exactly when the refresh came less than a timeout before the removal.
 */
module FilterTimeoutGaps {
  import opened ContainerHeap
  import opened NodeQueries
  import opened FilterSpec
  import opened FilterRuns
  import opened FilterTimeout
  import FilterGap

  // ---- when a filter is unexpired at the end of a run ----

  /** The step puts an installed filter under a new expiry. */
  predicate Renews(w: World, op: Op, id: Id) {
    !op.Install? && Queues(w, op) && op.id == id
  }

  function Elapsed(ops: seq<Op>): nat
    decreases |ops|
  {
    if ops == [] then 0 else (if ops[0].Tick? then ops[0].elapsed else 0) + Elapsed(ops[1..])
  }

  /** Some refresh in the run is followed by less than a timeout. */
  predicate RenewedLate(w: World, ops: seq<Op>, id: Id)
    decreases |ops|
  {
    ops != [] && ((Renews(w, ops[0], id) && Elapsed(ops[1..]) < w.timeout)
                  || RenewedLate(Step(w, ops[0]), ops[1..], id))
  }

  /** No expiry lies further ahead than the timeout. */
  ghost predicate ClockInv(w: World) {
    forall id | id in w.s.filters && !w.s.filters[id].hasWs :: w.s.filters[id].expiresAt <= w.now + w.timeout
  }

  /** One step of one filter that stays installed. */
  lemma StepOfFilter(w: World, op: Op, id: Id)
    requires HeapInv(w) && id in w.s.filters && !w.s.filters[id].hasWs && id in Step(w, op).s.filters
    ensures var w' := Step(w, op);
            && w'.timeout == w.timeout && w'.now == w.now + (if op.Tick? then op.elapsed else 0)
            && !w'.s.filters[id].hasWs
            && w'.s.filters[id].expiresAt ==
                 if Renews(w, op, id) then w.now + w.timeout else w.s.filters[id].expiresAt
  {
    hide Push, RemoveItem, OrderedTo, Distinct, FlushedHistory, HeapInv, Refreshed;
    InstalledHasHistory(w, id);
    match op
    case Install(_, _, _) =>
    case Uninstall(_) =>
    case GetChanges(of) => RefreshOfFilter(Taken(w, of), of, id);
    case Take(_) =>
    case Refresh(of) => RefreshOfFilter(w, of, id);
    case Dispatch(_) =>
    case Flush(_) =>
    case Tick(_) =>
  }

  lemma RefreshOfFilter(w: World, of: Id, id: Id)
    requires id in w.s.filters
    ensures var w' := Refreshed(w, of);
            && w'.timeout == w.timeout && w'.now == w.now
            && id in w'.s.filters && w'.s.filters[id].hasWs == w.s.filters[id].hasWs
            && w'.s.filters[id].expiresAt == if id == of then w.now + w.timeout else w.s.filters[id].expiresAt
  {
    hide Push, RemoveItem;
  }

  lemma InstalledHasHistory(w: World, id: Id)
    requires HeapInv(w) && id in w.s.filters
    ensures id in w.hist
  {
  }

  /** A filter that is gone does not come back. */
  lemma GoneStaysGone(w: World, op: Op, id: Id)
    requires HeapInv(w) && id in w.hist && id !in w.s.filters
    ensures id in Step(w, op).hist && id !in Step(w, op).s.filters
  {
    assert op.Install? && Enabled(w, op) ==> op.id != id;
    hide HeapInv, Push, RemoveItem, FlushedHistory, Enabled, Stored;
  }

  lemma {:induction false} GoneForGood(w: World, ops: seq<Op>, id: Id)
    requires HeapInv(w) && id in w.hist && id !in w.s.filters
    ensures id !in Run(w, ops).s.filters
    decreases |ops|
  {
    if ops != [] {
      StepKeepsHeap(w, ops[0]);
      GoneStaysGone(w, ops[0], id);
      GoneForGood(Step(w, ops[0]), ops[1..], id);
    }
  }

  lemma StepKeepsClock(w: World, op: Op)
    requires HeapInv(w) && ClockInv(w)
    ensures ClockInv(Step(w, op))
  {
    hide Push, RemoveItem, FlushedHistory, HeapInv;
  }

  lemma {:induction false} EveryRunKeepsClock(w: World, ops: seq<Op>)
    requires HeapInv(w) && ClockInv(w)
    ensures HeapInv(Run(w, ops)) && ClockInv(Run(w, ops))
    decreases |ops|
  {
    if ops != [] {
      StepKeepsHeap(w, ops[0]);
      StepKeepsClock(w, ops[0]);
      EveryRunKeepsClock(Step(w, ops[0]), ops[1..]);
    }
  }

  /** In any interleaving a filter that is still installed has not expired exactly when its first expiry
      lies beyond the run or it was refreshed late in it. */
  lemma {:induction false} UnexpiredIff(w: World, ops: seq<Op>, id: Id)
    requires HeapInv(w) && ClockInv(w) && id in w.s.filters && !w.s.filters[id].hasWs
    requires id in Run(w, ops).s.filters
    ensures var r := Run(w, ops);
            && r.now == w.now + Elapsed(ops) && r.timeout == w.timeout
            && (r.s.filters[id].expiresAt > r.now <==>
                  w.s.filters[id].expiresAt > w.now + Elapsed(ops) || RenewedLate(w, ops, id))
    decreases |ops|
  {
    if ops != [] {
      var w' := Step(w, ops[0]);
      StepKeepsHeap(w, ops[0]);
      StepKeepsClock(w, ops[0]);
      if id !in w'.s.filters {
        HistoryStays(w, ops[0], id);
        GoneForGood(w', ops[1..], id);
      }
      StepOfFilter(w, ops[0], id);
      hide Step, HeapInv;
      UnexpiredIff(w', ops[1..], id);
    }
  }

  lemma HistoryStays(w: World, op: Op, id: Id)
    requires HeapInv(w) && id in w.s.filters
    ensures id in Step(w, op).hist
  {
    hide Push, RemoveItem, OrderedTo, Distinct, FlushedHistory;
  }

  // ---- the gaps ----

  function Acts(ops: seq<Op>): seq<Event> {
    seq(|ops|, i requires 0 <= i < |ops| => Act(ops[i]))
  }

  /** While nothing is peeked or timed out, the clients' steps are a run; they leave the timer and wake
      the worker or leave it too. */
  lemma {:induction false} ActsAreRun(n: Node, ops: seq<Op>)
    ensures var r := Events(n, Acts(ops));
            && r.w == Run(n.w, ops) && r.timer == n.timer
            && (r.worker == n.worker || (n.worker.Parked? && r.worker.Busy?))
    decreases |ops|
  {
    if ops != [] {
      hide Step, Signals;
      assert Acts(ops)[0] == Act(ops[0]) && Acts(ops)[1..] == Acts(ops[1..]);
      ActsAreRun(Next(n, Act(ops[0])), ops[1..]);
    }
  }

  lemma {:induction false} EventsSum(n: Node, a: seq<Event>, b: seq<Event>)
    ensures Events(n, a + b) == Events(Events(n, a), b)
    decreases |a|
  {
    if a == [] {
      assert a + b == b;
    } else {
      assert (a + b)[1..] == a[1..] + b;
      EventsSum(Next(n, a[0]), a[1..], b);
    }
  }

  /** The worker peeks, parks after a gap, waits, and its timer fires. */
  function PeekGap(gap: seq<Op>, wait: seq<Op>): seq<Event> {
    [Peek] + Acts(gap) + [Select] + Acts(wait)
  }

  lemma PeekGapIs(n: Node, gap: seq<Op>, wait: seq<Op>)
    ensures Events(n, PeekGap(gap, wait)) == Events(Next(Events(Next(n, Peek), Acts(gap)), Select), Acts(wait))
  {
    hide Next, Acts;
    var n1 := Next(n, Peek);
    var n2 := Events(n1, Acts(gap));
    assert Events(n, [Peek]) == n1 by { assert [Peek][1..] == []; }
    assert Events(n2, [Select]) == Next(n2, Select) by { assert [Select][1..] == []; }
    EventsSum(n, [Peek], Acts(gap));
    EventsSum(n, [Peek] + Acts(gap), [Select]);
    EventsSum(n, [Peek] + Acts(gap) + [Select], Acts(wait));
  }

  lemma PeekGapRun(n: Node, gap: seq<Op>, wait: seq<Op>)
    requires n.worker.Busy?
    ensures var r := Events(n, PeekGap(gap, wait));
            var (id, expires) := NextTimeout(n.w.s);
            && r.w == Run(n.w, gap + wait) && r.timer == Armed(n)
            && (r.worker == Parked(id, expires) || r.worker.Busy?)
            && (Fires(r) ==> r.worker == Parked(NextTimeout(n.w.s).0, NextTimeout(n.w.s).1))
  {
    var n1 := Next(n, Peek);
    var n2 := Events(n1, Acts(gap));
    PeekGapIs(n, gap, wait);
    hide Events, PeekGap, Acts, Run, Step;
    ActsAreRun(n1, gap);
    ActsAreRun(Next(n2, Select), wait);
    RunSum(n.w, gap, wait);
  }

  /** What the timeout after it removes has not expired exactly when it was refreshed late since the
      peek. */
  lemma PeekGapExpiresEarlyIff(n: Node, gap: seq<Op>, wait: seq<Op>, id: Id)
    requires HeapInv(n.w) && ClockInv(n.w) && n.worker.Busy?
    requires n.w.s.timeouts != [] && n.w.s.timeouts[0].item == id && id in n.w.s.filters && !n.w.s.filters[id].hasWs
    requires var r := Events(n, PeekGap(gap, wait)); Fires(r) && id in r.w.s.filters
    ensures var r := Events(n, PeekGap(gap, wait));
            && Next(r, Timeout).w.s.filters == r.w.s.filters - {id}
            && (r.w.s.filters[id].expiresAt > r.w.now <==> RenewedLate(n.w, gap + wait, id))
  {
    hide RenewedLate, Run, Events, PeekGap, HeapInv, ClockInv, Armed, NextTimeout, Next, Elapsed;
    var r := Events(n, PeekGap(gap, wait));
    PeekGapRun(n, gap, wait);
    PeekedFires(n, r, id);
    UnexpiredIff(n.w, gap + wait, id);
    TimeoutRemoves(r, id);
  }

  lemma PeekedFires(n: Node, r: Node, id: Id)
    requires HeapInv(n.w) && n.w.s.timeouts != [] && n.w.s.timeouts[0].item == id
    requires id in n.w.s.filters && !n.w.s.filters[id].hasWs
    requires r.timer == Armed(n) && r.worker == Parked(NextTimeout(n.w.s).0, NextTimeout(n.w.s).1) && Fires(r)
    ensures r.worker.id == id && n.w.s.filters[id].expiresAt <= r.w.now
  {
    RootOfFilter(n.w, id);
  }

  lemma TimeoutRemoves(n: Node, id: Id)
    requires Fires(n) && n.worker.id == id && id in n.w.s.filters
    ensures Next(n, Timeout).w.s.filters == n.w.s.filters - {id}
  {
    hide RemoveItem;
  }

  lemma RootOfFilter(w: World, id: Id)
    requires HeapInv(w) && w.s.timeouts != [] && w.s.timeouts[0].item == id
    requires id in w.s.filters && !w.s.filters[id].hasWs
    ensures id != "" && w.s.timeouts[0].key == w.s.filters[id].expiresAt
  {
    var e := Entry(id, w.s.filters[id].expiresAt);
    var k :| 0 <= k < |w.s.timeouts| && w.s.timeouts[k] == e;
    PlaceIsIndex(w.s.timeouts, 0);
    PlaceIsIndex(w.s.timeouts, k);
  }

  /** The same for the gap between the timer and the removal. */
  lemma FireGapExpiresEarlyIff(n: Node, gap: seq<Op>, id: Id)
    requires HeapInv(n.w) && ClockInv(n.w) && Fires(n) && n.worker.id == id
    requires id in n.w.s.filters && !n.w.s.filters[id].hasWs && n.w.s.filters[id].expiresAt <= n.w.now
    requires id in Run(n.w, gap).s.filters
    ensures var r := Events(Next(n, Fire), Acts(gap));
            && r.w == Run(n.w, gap)
            && Next(r, Evict).w.s.filters == r.w.s.filters - {id}
            && (r.w.s.filters[id].expiresAt > r.w.now <==> RenewedLate(n.w, gap, id))
  {
    ActsAreRun(Next(n, Fire), gap);
    UnexpiredIff(n.w, gap, id);
    hide RenewedLate, Run, Events, RemoveItem, HeapInv, ClockInv;
  }

  // ---- both happen ----

  /** When a poll comes between peeking and parking its notification is lost, and the filter is
      removed although it has just been refreshed. */
  lemma PeekGapExpiresEarly(id: Id, q: NodeQuery)
    requires id != ""
    ensures var n := Events(Start(60, 0), [Act(Install(id, false, q)), Peek, Act(Tick(30)),
                                          Act(GetChanges(id)), Select, Act(Tick(30))]);
            && Fires(n) && n.w.now == 60
            && id in n.w.s.filters && n.w.s.filters[id].expiresAt == 90
            && id !in Next(n, Timeout).w.s.filters
  {
    var n0 := Start(60, 0);
    var n1 := Next(n0, Act(Install(id, false, q)));
    var n2 := Next(n1, Peek);
    assert n1.w.s.timeouts == [Entry(id, 60)];
    var es := [Act(Install(id, false, q)), Peek, Act(Tick(30)), Act(GetChanges(id)), Select, Act(Tick(30))];
    assert es[1..][1..] == [Act(Tick(30)), Act(GetChanges(id)), Select, Act(Tick(30))];
    assert Events(n1, es[1..]) == Events(n2, es[1..][1..]);
    assert Events(n0, es) == Events(n1, es[1..]);
    LostNotification(n2, id);
  }

  lemma LostNotification(n: Node, id: Id)
    requires n.worker == Peeked(id, 60) && n.timer == Deadline(60) && n.w.now == 0 && n.w.timeout == 60
    requires id in n.w.s.filters && !n.w.s.filters[id].hasWs
    ensures var n' := Events(n, [Act(Tick(30)), Act(GetChanges(id)), Select, Act(Tick(30))]);
            && Fires(n') && n'.w.now == 60
            && id in n'.w.s.filters && n'.w.s.filters[id].expiresAt == 90
            && id !in Next(n', Timeout).w.s.filters
  {
    hide Push, RemoveItem, FlushWs, FlushedHistory, AppendToFilters, AddFilter;
    var n1 := Next(n, Act(Tick(30)));
    EventsOfFour(n, Act(Tick(30)), Act(GetChanges(id)), Select, Act(Tick(30)));
    PollRefreshes(n1, id);
    hide RefreshTimeout, TakeChanges;
  }

  /** A poll moves the expiry; a worker that is not parked does not hear of it. */
  lemma PollRefreshes(n: Node, id: Id)
    requires id in n.w.s.filters && !n.w.s.filters[id].hasWs && !n.worker.Parked?
    ensures var n' := Next(n, Act(GetChanges(id)));
            && n'.worker == n.worker && n'.timer == n.timer
            && n'.w.now == n.w.now && n'.w.timeout == n.w.timeout
            && id in n'.w.s.filters && n'.w.s.filters[id].expiresAt == n.w.now + n.w.timeout
  {
    hide Push, RemoveItem;
  }

  lemma EventsOfFour(n: Node, a: Event, b: Event, c: Event, d: Event)
    ensures Events(n, [a, b, c, d]) == Next(Next(Next(Next(n, a), b), c), d)
  {
    hide Next;
    var n1 := Next(n, a);
    var n2 := Next(n1, b);
    var n3 := Next(n2, c);
    assert Events(n3, [d]) == Next(n3, d);
    assert [c, d][1..] == [d] && Events(n2, [c, d]) == Events(n3, [d]);
    assert [b, c, d][1..] == [c, d] && Events(n1, [b, c, d]) == Events(n2, [c, d]);
    assert [a, b, c, d][1..] == [b, c, d] && Events(n, [a, b, c, d]) == Events(n1, [b, c, d]);
  }

  /** When nothing comes between its halves a timeout is one step; a poll in between refreshes the
      filter and receives its messages, and the filter is removed all the same. */
  lemma FireGapExpiresEarly(n: Node, id: Id)
    requires HeapInv(n.w) && Fires(n) && n.worker.id == id
    requires id in n.w.s.filters && !n.w.s.filters[id].hasWs
    ensures Next(Next(n, Fire), Evict) == Next(n, Timeout)
    ensures var polled := Next(Next(n, Fire), Act(GetChanges(id)));
            && polled.w.s.filters[id].expiresAt == n.w.now + n.w.timeout
            && id !in Next(polled, Evict).w.s.filters
  {
    hide Push, RemoveItem, OrderedTo, Distinct;
    PollRefreshes(Next(n, Fire), id);
  }

  // ---- a blocked heap ----

  /** The worker holds no other filter than the stale one; the empty id is that of no filter. */
  predicate HoldsNoOther(n: Node, id: Id) {
    match n.worker
    case Busy => true
    case Peeked(x, _) => x == id || x == ""
    case Parked(x, _) => x == id || x == ""
    case Evicting(x) => x == id || x == ""
  }

  lemma NextKeepsBlocked(n: Node, e: Event, id: Id)
    requires FilterGap.Blocked(n.w, id) && HoldsNoOther(n, id)
    ensures FilterGap.Blocked(Next(n, e).w, id) && HoldsNoOther(Next(n, e), id)
    ensures !e.Act? ==> Next(n, e).w == n.w
  {
    match e
    case Act(op) => FilterGap.StepKeepsBlocked(n.w, op, id);
    case _ =>
  }

  /** Whatever clients and worker do from then on: no step of the worker removes any filter again. */
  lemma {:induction false} NothingExpiresAgain(n: Node, es: seq<Event>, e: Event, id: Id)
    requires FilterGap.Blocked(n.w, id) && HoldsNoOther(n, id)
    requires !e.Act?
    ensures var r := Events(n, es);
            && FilterGap.Blocked(r.w, id) && HoldsNoOther(r, id)
            && Next(r, e).w == r.w
    decreases |es|
  {
    hide FilterGap.Blocked, Next;
    if es == [] {
      NextKeepsBlocked(n, e, id);
    } else {
      NextKeepsBlocked(n, es[0], id);
      NothingExpiresAgain(Next(n, es[0]), es[1..], e, id);
    }
  }
}

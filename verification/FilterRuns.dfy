/**
 Runs of the filter manager: any number of clients and the worker, one critical section a step.

 `GetFilterChanges` has two critical sections. `GetChanges` is the call as one step; `Take` and
 `Refresh` are its two halves, between which other steps may come. Everything that holds in
 every run is proved for both kinds of run, or is shown to fail for the second.
 */
module FilterRuns {
  import opened ContainerHeap
  import opened NodeQueries
  import opened Subsequences
  import opened FilterSpec

  /** What a filter was installed with, the length of the log at that time, what has been handed
      out of it (returned by polling or written to its socket), and whether a write ever failed. */
  datatype History = History(hasWs: bool, query: NodeQuery, since: nat, out: seq<Application>, failed: bool)

  /** The manager, the clock, the readers between their two sections, and what happened so far. */
  datatype World = World(
    s: State, timeout: int, now: int, inflight: multiset<Id>,
    hist: map<Id, History>, log: seq<Application>)

  datatype Op =
    | Install(id: Id, ws: bool, query: NodeQuery)
    | Uninstall(id: Id)
    | GetChanges(id: Id)
    | Take(id: Id)
    | Refresh(id: Id)
    | Dispatch(app: Application)
    | Flush(limit: map<Id, nat>)
    | Tick(elapsed: nat)

  function Init(timeout: int, now: int): World {
    World(State(map[], []), timeout, now, multiset{}, map[], [])
  }

  /** UUIDs are fresh and not empty; the second half of a poll needs the first. */
  predicate Enabled(w: World, op: Op) {
    match op
    case Install(id, _, _) => id !in w.hist && id != ""
    case Refresh(id) => id in w.inflight
    case _ => true
  }

  function Taken(w: World, id: Id): World {
    match Changes(w.s, id)
    case Err(_) => w
    case Ok(msgs) =>
      w.(s := TakeChanges(w.s, id),
         inflight := w.inflight + multiset{id},
         hist := if id in w.hist then w.hist[id := w.hist[id].(out := w.hist[id].out + msgs)] else w.hist)
  }

  function Refreshed(w: World, id: Id): World {
    w.(s := RefreshTimeout(w.s, id, w.now + w.timeout), inflight := w.inflight - multiset{id})
  }

  function Flushed(w: World, limit: map<Id, nat>): World {
    w.(s := FlushWs(w.s), hist := map id | id in w.hist :: FlushedHistory(w, limit, id))
  }

  function FlushedHistory(w: World, limit: map<Id, nat>, id: Id): History
    requires id in w.hist
  {
    var h := w.hist[id];
    if id !in w.s.filters || !w.s.filters[id].hasWs then h
    else
      var f := w.s.filters[id];
      var n := Sent(f, limit, id);
      h.(out := h.out + f.msgs[..n], failed := h.failed || n < |f.msgs|)
  }

  /** A step that is not enabled leaves the world alone. */
  function Step(w: World, op: Op): World {
    if !Enabled(w, op) then w
    else
      match op
      case Install(id, ws, query) =>
        w.(s := AddFilter(w.s, id, ws, query, w.now + w.timeout),
           hist := w.hist[id := History(ws, query, |w.log|, [], false)])
      case Uninstall(id) => w.(s := RemoveFilterByID(w.s, id))
      case GetChanges(id) => if Changes(w.s, id).Ok? then Refreshed(Taken(w, id), id) else w
      case Take(id) => Taken(w, id)
      case Refresh(id) => Refreshed(w, id)
      case Dispatch(app) => w.(s := AppendToFilters(w.s, app), log := w.log + [app])
      case Flush(limit) => Flushed(w, limit)
      case Tick(elapsed) => w.(now := w.now + elapsed)
  }

  function Run(w: World, ops: seq<Op>): World
    decreases |ops|
  {
    if ops == [] then w else Run(Step(w, ops[0]), ops[1..])
  }

  lemma {:induction false} RunSum(w: World, a: seq<Op>, b: seq<Op>)
    ensures Run(w, a + b) == Run(Run(w, a), b)
    decreases |a|
  {
    if a == [] {
      assert a + b == b;
    } else {
      hide Step;
      assert (a + b)[1..] == a[1..] + b;
      RunSum(Step(w, a[0]), a[1..], b);
    }
  }

  /** Polling is one step throughout. */
  predicate Atomic(ops: seq<Op>) {
    forall op | op in ops :: !op.Take? && !op.Refresh?
  }

  // ---- the heap of timeouts ----

  /** What every interleaving keeps. */
  ghost predicate HeapInv(w: World) {
    var h := w.s.timeouts;
    && Ordered(h) && Distinct(h)
    && (forall id | id in w.s.filters ::
          id in w.hist && id != "" && w.s.filters[id].hasWs == w.hist[id].hasWs
          && w.s.filters[id].query == w.hist[id].query)
    && (forall id | id in w.s.filters && !w.s.filters[id].hasWs ::
          Entry(id, w.s.filters[id].expiresAt) in h)
    && (forall e | e in h :: e.item in w.hist && !w.hist[e.item].hasWs)
    && (forall id | id in w.inflight :: id in w.hist && !w.hist[id].hasWs)
  }

  /** What is true besides when polling is one step: the heap holds installed filters only. */
  ghost predicate ExactHeap(w: World) {
    && w.inflight == multiset{}
    && (forall id, k :: Entry(id, k) in w.s.timeouts <==>
          id in w.s.filters && !w.s.filters[id].hasWs && w.s.filters[id].expiresAt == k)
  }

  /** The steps that put a filter into the heap under a new expiry... */
  predicate Queues(w: World, op: Op) {
    && Enabled(w, op)
    && match op
       case Install(_, ws, _) => !ws
       case GetChanges(id) => Changes(w.s, id).Ok?
       case Refresh(_) => true
       case _ => false
  }

  /** ... and those that may take one out. */
  predicate Unqueues(w: World, op: Op) {
    op.Uninstall? && op.id in w.s.filters
  }

  /** Each step's effect on the heap, as the program computes it... */
  lemma HeapStep(w: World, op: Op)
    ensures var h := w.s.timeouts;
            Step(w, op).s.timeouts ==
              if Queues(w, op) then
                Push(if op.Install? then h else RemoveItem(h, op.id), Entry(op.id, w.now + w.timeout))
              else if Unqueues(w, op) then RemoveItem(h, op.id)
              else h
  {
    hide Push, RemoveItem;
  }

  /** ... and what the heap then contains. */
  lemma HeapAfter(w: World, op: Op)
    requires HeapInv(w)
    ensures Queues(w, op) ==> Queued(w.s.timeouts, Entry(op.id, w.now + w.timeout), Step(w, op).s.timeouts)
    ensures Unqueues(w, op) ==> Without(w.s.timeouts, op.id, Step(w, op).s.timeouts)
    ensures !Queues(w, op) && !Unqueues(w, op) ==> Step(w, op).s.timeouts == w.s.timeouts
  {
    HeapStep(w, op);
    hide Step, Push, RemoveItem, OrderedTo, Distinct;
    var h := w.s.timeouts;
    if Queues(w, op) {
      if op.Install? {
        PushItemSpec(h, Entry(op.id, w.now + w.timeout));
      } else {
        RequeueItemSpec(h, Entry(op.id, w.now + w.timeout));
      }
    } else if Unqueues(w, op) {
      RemoveItemSpec(h, op.id);
    }
  }

  lemma InstallKeeps(w: World, id: Id, ws: bool, query: NodeQuery)
    requires HeapInv(w) && Enabled(w, Install(id, ws, query))
    ensures HeapInv(Step(w, Install(id, ws, query)))
    ensures ExactHeap(w) ==> ExactHeap(Step(w, Install(id, ws, query)))
  {
    hide Push, RemoveItem, OrderedTo, Distinct;
    HeapAfter(w, Install(id, ws, query));
  }

  lemma UninstallKeeps(w: World, id: Id)
    requires HeapInv(w)
    ensures HeapInv(Step(w, Uninstall(id)))
    ensures ExactHeap(w) ==> ExactHeap(Step(w, Uninstall(id)))
  {
    hide Push, RemoveItem, OrderedTo, Distinct;
    HeapAfter(w, Uninstall(id));
  }

  lemma TakeKeeps(w: World, id: Id)
    requires HeapInv(w)
    ensures HeapInv(Taken(w, id))
    ensures Changes(w.s, id).Ok? ==> id in Taken(w, id).inflight
  {
  }

  lemma RefreshKeeps(w: World, id: Id)
    requires HeapInv(w) && id in w.inflight
    ensures HeapInv(Refreshed(w, id))
  {
    hide Push, RemoveItem, OrderedTo, Distinct;
    var r := Refreshed(w, id);
    RequeueItemSpec(w.s.timeouts, Entry(id, w.now + w.timeout));
    RequeuedKeeps(w, id, r);
  }

  /** The same, knowing of the new heap only what it contains. */
  lemma RequeuedKeeps(w: World, id: Id, r: World)
    requires HeapInv(w) && id in w.inflight
    requires Queued(w.s.timeouts, Entry(id, w.now + w.timeout), r.s.timeouts)
    requires r.s.filters ==
             if id in w.s.filters then w.s.filters[id := w.s.filters[id].(expiresAt := w.now + w.timeout)]
             else w.s.filters
    requires r.hist == w.hist && r.inflight == w.inflight - multiset{id}
    ensures HeapInv(r)
  {
    forall x | x in r.inflight ensures x in w.inflight {
      assert r.inflight[x] <= w.inflight[x];
    }
  }

  lemma GetChangesKeepsExact(w: World, id: Id)
    requires HeapInv(w) && ExactHeap(w)
    ensures ExactHeap(Step(w, GetChanges(id)))
  {
    hide Push, RemoveItem, OrderedTo, Distinct;
    if Changes(w.s, id).Ok? {
      var t := Taken(w, id);
      RequeueItemSpec(t.s.timeouts, Entry(id, t.now + t.timeout));
      RequeuedKeepsExact(w, id, Refreshed(t, id));
    }
  }

  lemma RequeuedKeepsExact(w: World, id: Id, r: World)
    requires ExactHeap(w) && id in w.s.filters && !w.s.filters[id].hasWs
    requires Queued(w.s.timeouts, Entry(id, w.now + w.timeout), r.s.timeouts)
    requires r.s.filters == w.s.filters[id := w.s.filters[id].(expiresAt := w.now + w.timeout, msgs := [])]
    requires r.inflight == multiset{}
    ensures ExactHeap(r)
  {
    forall x, k ensures Entry(x, k) in r.s.timeouts <==>
      x in r.s.filters && !r.s.filters[x].hasWs && r.s.filters[x].expiresAt == k
    {
      assert Entry(x, k) in w.s.timeouts <==>
        x in w.s.filters && !w.s.filters[x].hasWs && w.s.filters[x].expiresAt == k;
    }
  }

  /** Events are stored and written without touching the heap. */
  lemma EventsKeepHeap(w: World, op: Op)
    requires HeapInv(w) && (op.Dispatch? || op.Flush? || op.Tick?)
    ensures HeapInv(Step(w, op))
  {
    hide OrderedTo, Distinct;
  }

  lemma StepKeepsHeap(w: World, op: Op)
    requires HeapInv(w)
    ensures HeapInv(Step(w, op))
  {
    hide HeapInv;
    if Enabled(w, op) {
      match op
      case Install(id, ws, query) => InstallKeeps(w, id, ws, query);
      case Uninstall(id) => UninstallKeeps(w, id);
      case GetChanges(id) =>
        if Changes(w.s, id).Ok? {
          TakeKeeps(w, id);
          RefreshKeeps(Taken(w, id), id);
        }
      case Take(id) => TakeKeeps(w, id);
      case Refresh(id) => RefreshKeeps(w, id);
      case Dispatch(_) => EventsKeepHeap(w, op);
      case Flush(_) => EventsKeepHeap(w, op);
      case Tick(_) => EventsKeepHeap(w, op);
    }
  }

  lemma StepKeepsExact(w: World, op: Op)
    requires HeapInv(w) && ExactHeap(w) && !op.Take? && !op.Refresh?
    ensures ExactHeap(Step(w, op))
  {
    if Enabled(w, op) {
      match op
      case Install(id, ws, query) => InstallKeeps(w, id, ws, query);
      case Uninstall(id) => UninstallKeeps(w, id);
      case GetChanges(id) => GetChangesKeepsExact(w, id);
      case Dispatch(_) =>
      case Flush(_) =>
      case Tick(_) =>
    }
  }

  /** Every interleaving: heap order, no duplicates, every installed filter without a websocket is
      queued under its expiry, and no websocket filter is queued. */
  lemma {:induction false} EveryRunKeepsHeap(w: World, ops: seq<Op>)
    requires HeapInv(w)
    ensures HeapInv(Run(w, ops))
    decreases |ops|
  {
    if ops != [] {
      StepKeepsHeap(w, ops[0]);
      EveryRunKeepsHeap(Step(w, ops[0]), ops[1..]);
    }
  }

  /** With polling as one step the heap holds exactly the installed filters without a websocket. */
  lemma {:induction false} AtomicRunKeepsExact(w: World, ops: seq<Op>)
    requires HeapInv(w) && ExactHeap(w) && Atomic(ops)
    ensures HeapInv(Run(w, ops)) && ExactHeap(Run(w, ops))
    decreases |ops|
  {
    if ops != [] {
      assert ops[0] in ops;
      StepKeepsHeap(w, ops[0]);
      StepKeepsExact(w, ops[0]);
      AtomicRunKeepsExact(Step(w, ops[0]), ops[1..]);
    }
  }

  /** So from the start: one entry for each such filter, found at its place, and the root expires first. */
  lemma AtomicRunsAgree(timeout: int, start: int, ops: seq<Op>)
    requires Atomic(ops)
    ensures var s := Run(Init(timeout, start), ops).s;
            && Ordered(s.timeouts) && Distinct(s.timeouts)
            && (forall id :: IndexOf(s.timeouts, id) != -1 <==> id in s.filters && !s.filters[id].hasWs)
            && (forall id | id in s.filters && !s.filters[id].hasWs ::
                  s.timeouts[IndexOf(s.timeouts, id)] == Entry(id, s.filters[id].expiresAt)
                  && s.timeouts[0].key <= s.filters[id].expiresAt)
  {
    AtomicRunKeepsExact(Init(timeout, start), ops);
    var s := Run(Init(timeout, start), ops).s;
    forall id ensures IndexOf(s.timeouts, id) != -1 <==> id in s.filters && !s.filters[id].hasWs {
      if IndexOf(s.timeouts, id) != -1 {
        var e := s.timeouts[IndexOf(s.timeouts, id)];
        assert Entry(id, e.key) in s.timeouts;
      }
    }
    forall id | id in s.filters && !s.filters[id].hasWs
      ensures s.timeouts[IndexOf(s.timeouts, id)] == Entry(id, s.filters[id].expiresAt)
      ensures s.timeouts[0].key <= s.filters[id].expiresAt
    {
      var e := s.timeouts[IndexOf(s.timeouts, id)];
      assert Entry(id, e.key) in s.timeouts;
      RootLeast(s.timeouts, IndexOf(s.timeouts, id));
    }
  }
}

/**
 The filter manager's steps one filter at a time, and runs measured by what was asked of them: the
 events dispatched and the writes that failed.
 */
module FilterSteps {
  import opened ContainerHeap
  import opened NodeQueries
  import opened Subsequences
  import opened FilterSpec
  import opened FilterRuns
  import opened FilterDelivery
  import FilterTimeout

  // ---- one step, one filter ----

  /** The filter is there and is polled. */
  predicate Polled(w: World, id: Id) {
    id in w.s.filters && !w.s.filters[id].hasWs
  }

  /** The answer of a poll: which error, or the stored messages. */
  lemma ChangesIff(s: State, id: Id)
    ensures Changes(s, id) == Err(FilterNotFound) <==> id !in s.filters
    ensures Changes(s, id) == Err(WsFilterDoesNotSupportGetChanges) <==> id in s.filters && s.filters[id].hasWs
    ensures id in s.filters && !s.filters[id].hasWs ==> Changes(s, id) == Ok(s.filters[id].msgs)
  {
  }

  /** Which filters are installed after a step... */
  lemma InstalledAfter(w: World, op: Op, id: Id)
    ensures id in Step(w, op).s.filters <==>
              || (op.Install? && op.id == id && id != "" && id !in w.hist)
              || (id in w.s.filters && op != Uninstall(id))
  {
    if op.Install? || op.Uninstall? || op.Tick? {
      hide Push, RemoveItem, FlushedHistory, Changes;
    } else {
      KeysStay(w, op);
    }
  }

  lemma KeysStay(w: World, op: Op)
    requires !op.Install? && !op.Uninstall?
    ensures Step(w, op).s.filters.Keys == w.s.filters.Keys
  {
    hide TakeChanges, RefreshTimeout, AddFilter, RemoveFilterByID, FlushedHistory;
    if op.GetChanges? || op.Take? {
      TakenFilters(w.s, op.id);
    }
    if op.GetChanges? || op.Refresh? {
      RefreshedFilters(w.s, op.id, w.now + w.timeout);
      RefreshedFilters(TakeChanges(w.s, op.id), op.id, w.now + w.timeout);
    }
  }

  lemma TakenFilters(s: State, id: Id)
    ensures var t := TakeChanges(s, id);
            && t.filters.Keys == s.filters.Keys && t.timeouts == s.timeouts
            && forall x | x in s.filters :: t.filters[x] ==
                 if x == id && !s.filters[x].hasWs then s.filters[x].(msgs := []) else s.filters[x]
  {
  }

  lemma RefreshedFilters(s: State, id: Id, expires: int)
    ensures var t := RefreshTimeout(s, id, expires);
            && t.filters.Keys == s.filters.Keys
            && forall x | x in s.filters :: t.filters[x] ==
                 if x == id then s.filters[x].(expiresAt := expires) else s.filters[x]
  {
    hide Push, RemoveItem;
  }

  lemma PollAfter(w: World, op: Op, id: Id)
    requires id in w.s.filters && (op.GetChanges? || op.Take? || op.Refresh?)
    ensures var f := w.s.filters[id];
            id in Step(w, op).s.filters && Step(w, op).s.filters[id] ==
              if op == GetChanges(id) && !f.hasWs then f.(msgs := [], expiresAt := w.now + w.timeout)
              else if op == Take(id) && !f.hasWs then f.(msgs := [])
              else if op == Refresh(id) && id in w.inflight then f.(expiresAt := w.now + w.timeout)
              else f
  {
    hide TakeChanges, RefreshTimeout, AppendToFilters, FlushWs, AddFilter, RemoveFilterByID, FlushedHistory;
    if !op.Refresh? {
      TakenFilters(w.s, op.id);
    }
    if !op.Take? {
      RefreshedFilters(w.s, op.id, w.now + w.timeout);
      RefreshedFilters(TakeChanges(w.s, op.id), op.id, w.now + w.timeout);
    }
  }

  lemma EventAfter(w: World, op: Op, id: Id)
    requires id in w.s.filters && (op.Dispatch? || op.Flush?)
    ensures var f := w.s.filters[id];
            id in Step(w, op).s.filters && Step(w, op).s.filters[id] ==
              if op.Dispatch? && Match(f.query, op.app) then f.(msgs := f.msgs + [op.app])
              else if op.Flush? && f.hasWs then f.(msgs := [])
              else f
  {
    hide FlushedHistory, Match;
  }

  /** ... and what becomes of one that stays: a poll takes its messages and renews its expiry, in one
      step or in two; a matching event is stored; a flush takes what a websocket filter stores. */
  lemma FilterAfter(w: World, op: Op, id: Id)
    requires id in w.s.filters && id in w.hist && op != Uninstall(id)
    ensures var f := w.s.filters[id];
            id in Step(w, op).s.filters && Step(w, op).s.filters[id] ==
              if op == GetChanges(id) && !f.hasWs then f.(msgs := [], expiresAt := w.now + w.timeout)
              else if op == Take(id) && !f.hasWs then f.(msgs := [])
              else if op == Refresh(id) && id in w.inflight then f.(expiresAt := w.now + w.timeout)
              else if op.Dispatch? && Match(f.query, op.app) then f.(msgs := f.msgs + [op.app])
              else if op.Flush? && f.hasWs then f.(msgs := [])
              else f
  {
    hide Match, Changes, Push, RemoveItem;
    if op.Dispatch? || op.Flush? {
      hide Step;
      EventAfter(w, op, id);
    } else if op.GetChanges? || op.Take? || op.Refresh? {
      hide Step;
      PollAfter(w, op, id);
    }
  }

  lemma NewFilter(w: World, id: Id, ws: bool, query: NodeQuery)
    requires id !in w.hist && id != ""
    ensures var w' := Step(w, Install(id, ws, query));
            && id in w'.s.filters && id in w'.hist
            && w'.s.filters[id] == Filter(ws, query, if ws then 0 else w.now + w.timeout, [])
            && w'.hist[id] == History(ws, query, |w.log|, [], false)
  {
    hide Push;
  }

  lemma FlushHands(w: World, op: Op, id: Id)
    requires op.Flush? && id in w.hist
    ensures id in Step(w, op).hist
    ensures var h := w.hist[id];
            Step(w, op).hist[id] ==
              if !Written(w, op, id) then h
              else if WriteFails(w, op, id) then h.(out := h.out + w.s.filters[id].msgs[..op.limit[id]], failed := true)
              else h.(out := h.out + w.s.filters[id].msgs)
  {
    hide FlushWs;
  }

  lemma TakenHands(w: World, of: Id, id: Id)
    requires id in w.hist
    ensures id in Taken(w, of).hist
    ensures var h := w.hist[id];
            Taken(w, of).hist[id] == if id == of && Polled(w, id) then h.(out := h.out + w.s.filters[id].msgs) else h
  {
    hide TakeChanges;
  }

  lemma PollHandsTaken(w: World, op: Op)
    requires op.GetChanges? || op.Take?
    ensures Step(w, op).hist == Taken(w, op.id).hist
  {
    hide TakeChanges, RefreshTimeout;
    if op.GetChanges? && Changes(w.s, op.id).Err? {
      assert Taken(w, op.id) == w;
    }
  }

  lemma PollHands(w: World, op: Op, id: Id)
    requires (op.GetChanges? || op.Take?) && id in w.hist
    ensures id in Step(w, op).hist
    ensures var h := w.hist[id];
            Step(w, op).hist[id] == if Written(w, op, id) then h.(out := h.out + w.s.filters[id].msgs) else h
    ensures !WriteFails(w, op, id)
  {
    hide Step, Taken;
    PollHandsTaken(w, op);
    TakenHands(w, op.id, id);
  }

  /** What is handed out: everything a poll finds, and what a flush can write. */
  lemma HandedOut(w: World, op: Op, id: Id)
    requires id in w.hist
    ensures id in Step(w, op).hist
    ensures var h := w.hist[id];
            Step(w, op).hist[id] ==
              if !Written(w, op, id) then h
              else if WriteFails(w, op, id) then h.(out := h.out + w.s.filters[id].msgs[..op.limit[id]], failed := true)
              else h.(out := h.out + w.s.filters[id].msgs)
  {
    hide AddFilter, RemoveFilterByID, RefreshTimeout, AppendToFilters, Taken, Flushed, WriteFails, Changes;
    if op.Flush? {
      hide Step;
      FlushHands(w, op, id);
    } else if op.GetChanges? || op.Take? {
      hide Step;
      PollHands(w, op, id);
    }
  }

  /** A poll of a filter without a websocket, or a flush of one with. */
  predicate Written(w: World, op: Op, id: Id) {
    id in w.s.filters && if w.s.filters[id].hasWs then op.Flush? else op == GetChanges(id) || op == Take(id)
  }

  /** The flush meets a failing write before it has written all that the filter stores. */
  predicate WriteFails(w: World, op: Op, id: Id) {
    && op.Flush? && id in op.limit
    && id in w.s.filters && w.s.filters[id].hasWs && op.limit[id] < |w.s.filters[id].msgs|
  }

  /** Any number of readers may be between their two halves: each is from its own taking to its own
      refresh. */
  lemma ReadersAfter(w: World, op: Op, id: Id)
    ensures Step(w, op).inflight[id] ==
              if op == Take(id) && Polled(w, id) then w.inflight[id] + 1
              else if op == Refresh(id) && w.inflight[id] > 0 then w.inflight[id] - 1
              else w.inflight[id]
  {
    hide TakeChanges, RefreshTimeout, FlushedHistory;
  }

  /** The call as one step is its two halves with nothing in between. */
  lemma HalvesOfAPoll(w: World, id: Id)
    requires Polled(w, id)
    ensures Step(Step(w, Take(id)), Refresh(id)) == Step(w, GetChanges(id))
  {
    hide Push, RemoveItem;
  }

  // ---- runs ----

  /** The events dispatched in a run, in order. */
  function Dispatched(ops: seq<Op>): seq<Application>
    decreases |ops|
  {
    if ops == [] then [] else (if ops[0].Dispatch? then [ops[0].app] else []) + Dispatched(ops[1..])
  }

  lemma LogAfter(w: World, op: Op)
    ensures Step(w, op).log == w.log + if op.Dispatch? then [op.app] else []
  {
    assert w.log + [] == w.log;
  }

  lemma {:induction false} LogIsDispatched(w: World, ops: seq<Op>)
    ensures Run(w, ops).log == w.log + Dispatched(ops)
    decreases |ops|
  {
    if ops == [] {
      assert w.log + [] == w.log;
    } else {
      hide Step;
      var a := if ops[0].Dispatch? then [ops[0].app] else [];
      LogAfter(w, ops[0]);
      LogIsDispatched(Step(w, ops[0]), ops[1..]);
      Regroup(w.log, a, Dispatched(ops[1..]));
    }
  }

  lemma Regroup(a: seq<Application>, b: seq<Application>, c: seq<Application>)
    ensures a + b + c == a + (b + c)
  {
  }

  /** What a filter was installed with stays on record. */
  lemma {:induction false} RecordStays(w: World, ops: seq<Op>, id: Id)
    requires HeapInv(w) && id in w.hist
    ensures id in Run(w, ops).hist
    ensures var h, h' := w.hist[id], Run(w, ops).hist[id];
            h'.hasWs == h.hasWs && h'.query == h.query && h'.since == h.since
    decreases |ops|
  {
    if ops != [] {
      HandedOut(w, ops[0], id);
      StepKeepsHeap(w, ops[0]);
      hide Step, HeapInv;
      RecordStays(Step(w, ops[0]), ops[1..], id);
    }
  }

  /** Somewhere in the run a write to the filter's socket fails. */
  predicate SomeWriteFails(w: World, ops: seq<Op>, id: Id)
    decreases |ops|
  {
    ops != [] && (WriteFails(w, ops[0], id) || SomeWriteFails(Step(w, ops[0]), ops[1..], id))
  }

  lemma {:induction false} FailedIff(w: World, ops: seq<Op>, id: Id)
    requires HeapInv(w) && id in w.hist
    ensures id in Run(w, ops).hist
    ensures Run(w, ops).hist[id].failed <==> w.hist[id].failed || SomeWriteFails(w, ops, id)
    decreases |ops|
  {
    if ops != [] {
      HandedOut(w, ops[0], id);
      StepKeepsHeap(w, ops[0]);
      hide Step, WriteFails, HeapInv;
      FailedIff(Step(w, ops[0]), ops[1..], id);
    }
  }

  lemma {:induction false} NoLimitNoFailure(w: World, ops: seq<Op>, id: Id)
    requires forall op | op in ops && op.Flush? :: id !in op.limit
    ensures !SomeWriteFails(w, ops, id)
    decreases |ops|
  {
    if ops != [] {
      assert ops[0] in ops;
      hide Step;
      NoLimitNoFailure(Step(w, ops[0]), ops[1..], id);
    }
  }

  lemma RunAround(w: World, before: seq<Op>, op: Op, after: seq<Op>)
    ensures Run(w, before + [op] + after) == Run(Step(Run(w, before), op), after)
  {
    assert before + [op] + after == before + ([op] + after);
    RunSum(w, before, [op] + after);
    hide Step;
    assert ([op] + after)[1..] == after;
  }

  /** A filter's life from its installation on: what it has handed out and still stores are the matching
      events dispatched since, in order; all of them while it is installed and no write to it fails,
      those up to its end when it is polled and gone. */
  lemma LifeOfAFilter(timeout: int, start: int, before: seq<Op>, id: Id, ws: bool, query: NodeQuery, after: seq<Op>)
    requires id != "" && id !in Run(Init(timeout, start), before).hist
    ensures var w := Run(Init(timeout, start), before + [Install(id, ws, query)] + after);
            var due := Select(query, Dispatched(after));
            && id in w.hist
            && Subseq(w.hist[id].out, due)
            && (id in w.s.filters && (ws ==> forall op | op in after && op.Flush? :: id !in op.limit) ==>
                  w.hist[id].out + w.s.filters[id].msgs == due)
            && (!ws ==> w.hist[id].out <= due)
  {
    var ops := before + [Install(id, ws, query)] + after;
    var w0 := Run(Init(timeout, start), before);
    var w1 := Step(w0, Install(id, ws, query));
    var w := Run(Init(timeout, start), ops);
    RunAround(Init(timeout, start), before, Install(id, ws, query), after);
    EveryRunKeepsHeap(Init(timeout, start), before);
    StepKeepsHeap(w0, Install(id, ws, query));
    NewFilter(w0, id, ws, query);
    LogAfter(w0, Install(id, ws, query));
    RecordStays(w1, after, id);
    LogIsDispatched(w1, after);
    hide Run, Step, HeapInv, Dispatched, Subseq;
    assert w0.log + [] == w0.log;
    assert w.log[|w0.log|..] == Dispatched(after);
    if ws {
      WrittenInOrder(timeout, start, ops, id);
      if forall op | op in after && op.Flush? :: id !in op.limit {
        NoLimitNoFailure(w1, after, id);
        FailedIff(w1, after, id);
      }
    } else {
      PolledExactlyOnce(timeout, start, ops, id);
      PrefixIsSubseq(w.hist[id].out, Due(w, id));
    }
  }

  // ---- the worker ----

  /** The worker is notified of what queues a filter and of what takes one out of the heap, and of
      nothing else. */
  lemma SignalsIff(w: World, op: Op)
    ensures FilterTimeout.Signals(w, op) <==>
              || (op.Install? && !op.ws && op.id != "" && op.id !in w.hist)
              || (op.GetChanges? && Polled(w, op.id))
              || (op.Refresh? && op.id in w.inflight)
              || (op.Uninstall? && op.id in w.s.filters && exists k :: Entry(op.id, k) in w.s.timeouts)
  {
    if op.Uninstall? {
      QueuedIff(w.s.timeouts, op.id);
    }
  }

  lemma QueuedIff(h: seq<Entry<Id>>, id: Id)
    ensures IndexOf(h, id) != -1 <==> exists k :: Entry(id, k) in h
  {
    if IndexOf(h, id) != -1 {
      assert Entry(id, h[IndexOf(h, id)].key) in h;
    }
  }

  /** Two halves with nothing in between are the whole step. */
  lemma HalvesOfTheWorker(n: FilterTimeout.Node)
    ensures n.worker.Busy? ==>
              FilterTimeout.Next(FilterTimeout.Next(n, FilterTimeout.Peek), FilterTimeout.Select)
              == FilterTimeout.Next(n, FilterTimeout.Park)
    ensures n.worker.Parked? ==>
              FilterTimeout.Next(FilterTimeout.Next(n, FilterTimeout.Fire), FilterTimeout.Evict)
              == FilterTimeout.Next(n, FilterTimeout.Timeout)
  {
    hide Step;
  }

  /** A parked worker goes on exactly when it is notified or its timer has fired. */
  lemma WakesIff(n: FilterTimeout.Node, e: FilterTimeout.Event)
    requires n.worker.Parked?
    ensures FilterTimeout.Next(n, e).worker == n.worker <==>
              !(e.Wake? || (e.Act? && FilterTimeout.Signals(n.w, e.op))
                || ((e.Timeout? || e.Fire?) && n.timer.Deadline? && n.timer.at <= n.w.now))
  {
    hide Step;
  }

  /** The timer is set by a peek that finds a filter and spent when it fires; a peek that finds none
      leaves the one there was. */
  lemma TimerAfter(n: FilterTimeout.Node, e: FilterTimeout.Event)
    ensures var h := n.w.s.timeouts;
            FilterTimeout.Next(n, e).timer ==
              if (e.Park? || e.Peek?) && n.worker.Busy? && h != [] && h[0].item != "" then
                FilterTimeout.Deadline(h[0].key)
              else if (e.Timeout? || e.Fire?) && n.worker.Parked? && n.timer.Deadline? && n.timer.at <= n.w.now then
                FilterTimeout.Unset
              else n.timer
  {
    hide Step;
  }

  /** A notified worker parks again on the root, and its timeout takes the root out exactly when that
      has expired, from that very moment on. */
  lemma RootExpiresIff(n: FilterTimeout.Node)
    requires FilterTimeout.WorkerInv(n) && n.w.s.timeouts != []
    ensures var root := n.w.s.timeouts[0];
            var parked := FilterTimeout.Next(FilterTimeout.Next(n, FilterTimeout.Wake), FilterTimeout.Park);
            && parked.w == n.w && parked.worker == FilterTimeout.Parked(root.item, root.key)
            && root.item in n.w.s.filters
            && FilterTimeout.Next(parked, FilterTimeout.Timeout).w.s.filters ==
                 if root.key <= n.w.now then n.w.s.filters - {root.item} else n.w.s.filters
  {
    hide Push, RemoveItem, OrderedTo, Distinct;
    FilterTimeout.RootIsInstalled(n);
  }
}

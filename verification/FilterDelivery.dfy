/**
 Conservation of events: what a filter hands out is what was dispatched and matches, in order.

 Every run of `FilterRuns` is covered, also those where a poll's two halves are separate steps.
 A poll hands out what it takes in its first half; a flush takes everything and may write less.
 */
module FilterDelivery {
  import opened ContainerHeap
  import opened NodeQueries
  import opened Subsequences
  import opened FilterSpec
  import opened FilterRuns

  /** What a filter is owed: the matching part of the log since its installation. */
  ghost function Due(w: World, id: Id): seq<Application>
    requires id in w.hist && w.hist[id].since <= |w.log|
  {
    Select(w.hist[id].query, w.log[w.hist[id].since..])
  }

  /** What it has handed out, followed by what it still stores. */
  ghost function Accounted(w: World, id: Id): seq<Application>
    requires id in w.hist
  {
    w.hist[id].out + if id in w.s.filters then w.s.filters[id].msgs else []
  }

  /** Unless a write failed nothing is missing; a filter that is gone has just stopped early. */
  ghost predicate Faithful(failed: bool, installed: bool, accounted: seq<Application>, due: seq<Application>) {
    && Subseq(accounted, due)
    && (!failed && installed ==> accounted == due)
    && (!failed && !installed ==> accounted <= due)
  }

  ghost predicate Delivered(w: World, id: Id)
    requires id in w.hist
  {
    && w.hist[id].since <= |w.log|
    && (w.hist[id].failed ==> w.hist[id].hasWs)
    && Faithful(w.hist[id].failed, id in w.s.filters, Accounted(w, id), Due(w, id))
  }

  ghost predicate DeliveryInv(w: World) {
    && HeapInv(w)
    && (forall id | id in w.hist :: Delivered(w, id))
  }

  /** Nothing was taken from or added to filter id, and the log is the same. */
  lemma Unaffected(w: World, w': World, id: Id)
    requires id in w.hist && Delivered(w, id)
    requires id in w'.hist && w'.hist[id] == w.hist[id] && w'.log == w.log
    requires id in w'.s.filters <==> id in w.s.filters
    requires id in w.s.filters ==> w'.s.filters[id].msgs == w.s.filters[id].msgs
    ensures Delivered(w', id)
  {
  }

  lemma DispatchDelivers(w: World, app: Application, id: Id)
    requires id in w.hist && Delivered(w, id)
    requires id in w.s.filters ==> w.s.filters[id].query == w.hist[id].query
    ensures Delivered(Step(w, Dispatch(app)), id)
  {
    hide Delivered;
    DispatchedOne(w, Step(w, Dispatch(app)), app, id);
  }

  lemma DispatchedOne(w: World, w': World, app: Application, id: Id)
    requires id in w.hist && Delivered(w, id)
    requires id in w'.hist && w'.hist[id] == w.hist[id] && w'.log == w.log + [app]
    requires id in w'.s.filters <==> id in w.s.filters
    requires id in w.s.filters ==>
      w.s.filters[id].query == w.hist[id].query && w'.s.filters[id] == Stored(w.s.filters[id], app)
    ensures Delivered(w', id)
  {
    hide Faithful, Due, Accounted;
    var x := Asked(w.hist[id].query, app);
    DueGrows(w, w', app, id);
    AccountedGrows(w, w', app, id);
    FaithfulGrows(w.hist[id].failed, id in w.s.filters, Accounted(w, id), Due(w, id), x);
  }

  function Asked(q: NodeQuery, app: Application): seq<Application> {
    if Match(q, app) then [app] else []
  }

  lemma DueGrows(w: World, w': World, app: Application, id: Id)
    requires id in w.hist && w.hist[id].since <= |w.log|
    requires id in w'.hist && w'.hist[id] == w.hist[id] && w'.log == w.log + [app]
    ensures Due(w', id) == Due(w, id) + Asked(w.hist[id].query, app)
  {
    var h := w.hist[id];
    assert w'.log[h.since..] == w.log[h.since..] + [app];
    SelectSnoc(h.query, w.log[h.since..], app);
  }

  lemma AccountedGrows(w: World, w': World, app: Application, id: Id)
    requires id in w.hist && id in w'.hist && w'.hist[id] == w.hist[id]
    requires id in w'.s.filters <==> id in w.s.filters
    requires id in w.s.filters ==>
      w.s.filters[id].query == w.hist[id].query && w'.s.filters[id] == Stored(w.s.filters[id], app)
    ensures Accounted(w', id) ==
      Accounted(w, id) + (if id in w.s.filters then Asked(w.hist[id].query, app) else [])
  {
  }

  /** The owed messages grow by at most one; an installed filter stores it. */
  lemma FaithfulGrows(failed: bool, installed: bool, accounted: seq<Application>, due: seq<Application>,
                      x: seq<Application>)
    requires Faithful(failed, installed, accounted, due) && |x| <= 1
    ensures Faithful(failed, installed, accounted + (if installed then x else []), due + x)
  {
    hide Subseq;
    if x == [] {
      assert due + x == due && accounted + [] == accounted;
    } else {
      SubseqKeep(accounted, due, x[0]);
      assert x == [x[0]] && accounted + [] == accounted;
    }
  }

  lemma FlushDelivers(w: World, limit: map<Id, nat>, id: Id)
    requires id in w.hist && Delivered(w, id)
    requires id in w.s.filters ==> w.s.filters[id].hasWs == w.hist[id].hasWs
    ensures Delivered(Step(w, Flush(limit)), id)
  {
    hide Subseq;
    var w' := Step(w, Flush(limit));
    if id in w.s.filters && w.s.filters[id].hasWs {
      var f := w.s.filters[id];
      var n := Sent(f, limit, id);
      var k := |w.hist[id].out| + n;
      assert Accounted(w', id) == Accounted(w, id)[..k] by {
        assert Accounted(w', id) == w.hist[id].out + f.msgs[..n] + [];
      }
      assert n == |f.msgs| ==> Accounted(w', id) == Accounted(w, id);
      SubseqPrefix(Accounted(w, id), Due(w, id), k);
    } else {
      Unaffected(w, w', id);
    }
  }

  lemma TakeDelivers(w: World, of: Id, id: Id)
    requires id in w.hist && Delivered(w, id)
    ensures Delivered(Taken(w, of), id)
  {
    var w' := Taken(w, of);
    if id == of && Changes(w.s, id).Ok? {
      assert Accounted(w', id) == w.hist[id].out + w.s.filters[id].msgs + [];
      assert Accounted(w', id) == Accounted(w, id);
    } else {
      Unaffected(w, w', id);
    }
  }

  lemma UninstallDelivers(w: World, of: Id, id: Id)
    requires id in w.hist && Delivered(w, id)
    ensures Delivered(Step(w, Uninstall(of)), id)
  {
    var w' := Step(w, Uninstall(of));
    if id == of && id in w.s.filters {
      var out := w.hist[id].out;
      assert Accounted(w', id) == out && Accounted(w, id)[..|out|] == out;
      SubseqPrefix(Accounted(w, id), Due(w, id), |out|);
    } else {
      Unaffected(w, w', id);
    }
  }

  lemma InstallDelivers(w: World, of: Id, ws: bool, query: NodeQuery, id: Id)
    requires Enabled(w, Install(of, ws, query)) && (id in w.s.filters ==> id in w.hist)
    requires if id in w.hist then Delivered(w, id) else id == of
    ensures Delivered(Step(w, Install(of, ws, query)), id)
  {
    var w' := Step(w, Install(of, ws, query));
    if id == of {
      assert w.log[|w.log|..] == [];
      assert Accounted(w', id) == [] == Due(w', id);
    } else {
      Unaffected(w, w', id);
    }
  }

  lemma StepDelivers(w: World, op: Op)
    requires DeliveryInv(w)
    ensures DeliveryInv(Step(w, op))
  {
    StepKeepsHeap(w, op);
    if Enabled(w, op) {
      forall id | id in Step(w, op).hist ensures Delivered(Step(w, op), id) {
        StepDeliversOne(w, op, id);
      }
    }
  }

  lemma GetChangesDelivers(w: World, of: Id, id: Id)
    requires id in w.hist && Delivered(w, id)
    ensures Delivered(Step(w, GetChanges(of)), id)
  {
    hide Delivered, RemoveItem;
    TakeDelivers(w, of, id);
    if Changes(w.s, of).Ok? { Unaffected(Taken(w, of), Step(w, GetChanges(of)), id); }
  }

  lemma RefreshDelivers(w: World, of: Id, id: Id)
    requires id in w.hist && Delivered(w, id)
    ensures Delivered(Step(w, Refresh(of)), id)
  {
    hide Delivered, RemoveItem;
    Unaffected(w, Step(w, Refresh(of)), id);
  }

  lemma TickDelivers(w: World, elapsed: nat, id: Id)
    requires id in w.hist && Delivered(w, id)
    ensures Delivered(Step(w, Tick(elapsed)), id)
  {
    Unaffected(w, Step(w, Tick(elapsed)), id);
  }

  lemma HistoriesAfter(w: World, op: Op)
    requires Enabled(w, op)
    ensures Step(w, op).hist.Keys == w.hist.Keys + (if op.Install? then {op.id} else {})
    ensures op.Take? ==> Step(w, op) == Taken(w, op.id)
  {
  }

  lemma StepDeliversOne(w: World, op: Op, id: Id)
    requires DeliveryInv(w) && Enabled(w, op) && id in Step(w, op).hist
    ensures Delivered(Step(w, op), id)
  {
    HistoriesAfter(w, op);
    hide Step, Delivered;
    match op
    case Install(of, ws, query) => InstallDelivers(w, of, ws, query, id);
    case Uninstall(of) => UninstallDelivers(w, of, id);
    case GetChanges(of) => GetChangesDelivers(w, of, id);
    case Take(of) => TakeDelivers(w, of, id);
    case Refresh(of) => RefreshDelivers(w, of, id);
    case Dispatch(app) => DispatchDelivers(w, app, id);
    case Flush(limit) => FlushDelivers(w, limit, id);
    case Tick(elapsed) => TickDelivers(w, elapsed, id);
  }

  lemma {:induction false} EveryRunDelivers(w: World, ops: seq<Op>)
    requires DeliveryInv(w)
    ensures DeliveryInv(Run(w, ops))
    decreases |ops|
  {
    if ops != [] {
      StepDelivers(w, ops[0]);
      EveryRunDelivers(Step(w, ops[0]), ops[1..]);
    }
  }

  /** Polled filters: exactly once and in order; only a filter that is gone misses the end. */
  lemma PolledExactlyOnce(timeout: int, start: int, ops: seq<Op>, id: Id)
    requires id in Run(Init(timeout, start), ops).hist
    requires !Run(Init(timeout, start), ops).hist[id].hasWs
    ensures var w := Run(Init(timeout, start), ops);
            && w.hist[id].since <= |w.log|
            && (id in w.s.filters ==> w.hist[id].out + w.s.filters[id].msgs == Due(w, id))
            && (id !in w.s.filters ==> w.hist[id].out <= Due(w, id))
  {
    EveryRunDelivers(Init(timeout, start), ops);
    var w := Run(Init(timeout, start), ops);
    if id !in w.s.filters {
      assert Accounted(w, id) == w.hist[id].out;
    }
  }

  /** Websocket filters: an ordered part of what is due, and all of it while no write fails. */
  lemma WrittenInOrder(timeout: int, start: int, ops: seq<Op>, id: Id)
    requires id in Run(Init(timeout, start), ops).hist
    requires Run(Init(timeout, start), ops).hist[id].hasWs
    ensures var w := Run(Init(timeout, start), ops);
            && w.hist[id].since <= |w.log|
            && Subseq(w.hist[id].out, Due(w, id))
            && (id in w.s.filters && !w.hist[id].failed ==>
                  w.hist[id].out + w.s.filters[id].msgs == Due(w, id))
  {
    EveryRunDelivers(Init(timeout, start), ops);
    var w := Run(Init(timeout, start), ops);
    SubseqPrefix(Accounted(w, id), Due(w, id), |w.hist[id].out|);
    assert Accounted(w, id)[..|w.hist[id].out|] == w.hist[id].out;
  }
}

/**
 The worker that expires filters (node_filter_manager.go:242-287, 405-437).

 The worker peeks the root of the heap, sets its timer and parks in a `select`. Notifications are
 non-blocking sends on an unbuffered channel: they reach a parked worker and are lost otherwise.
 `Park` is peeking and parking as one step; `Peek` and `Select` are its two halves. `Timeout` is the
 timer's case and the removal as one step; `Fire` and `Evict` are its two halves.
 */
module FilterTimeout {
  import opened ContainerHeap
  import opened NodeQueries
  import opened FilterSpec
  import opened FilterRuns

  datatype Worker = Busy | Peeked(id: Id, expires: int) | Parked(id: Id, expires: int) | Evicting(id: Id)

  datatype Timer = Unset | Deadline(at: int)

  /** `timer` is the channel variable: an empty peek leaves the previous timer in it. */
  datatype Node = Node(w: World, worker: Worker, timer: Timer)

  datatype Event =
    | Act(op: Op)
    | Wake
    | Park
    | Peek
    | Select
    | Timeout
    | Fire
    | Evict

  /** Whether the operation notifies the worker. */
  predicate Signals(w: World, op: Op) {
    && Enabled(w, op)
    && match op
       case Install(_, ws, _) => !ws
       case Uninstall(id) => RemoveSignals(w.s, id)
       case GetChanges(id) => Changes(w.s, id).Ok?
       case Refresh(_) => true
       case _ => false
  }

  /** `nextTimeoutFilter`. */
  function NextTimeout(s: State): (Id, int) {
    if s.timeouts == [] then ("", 0) else (s.timeouts[0].item, s.timeouts[0].key)
  }

  function Armed(n: Node): Timer {
    var (id, expires) := NextTimeout(n.w.s);
    if id != "" then Deadline(expires) else n.timer
  }

  predicate Fires(n: Node) {
    n.worker.Parked? && n.timer.Deadline? && n.timer.at <= n.w.now
  }

  function Next(n: Node, e: Event): Node {
    var (id, expires) := NextTimeout(n.w.s);
    match e
    case Act(op) =>
      Node(Step(n.w, op), if n.worker.Parked? && Signals(n.w, op) then Busy else n.worker, n.timer)
    case Wake => if n.worker.Parked? then n.(worker := Busy) else n
    case Park => if n.worker.Busy? then Node(n.w, Parked(id, expires), Armed(n)) else n
    case Peek => if n.worker.Busy? then Node(n.w, Peeked(id, expires), Armed(n)) else n
    case Select => if n.worker.Peeked? then n.(worker := Parked(n.worker.id, n.worker.expires)) else n
    case Timeout => if Fires(n) then Node(Step(n.w, Uninstall(n.worker.id)), Busy, Unset) else n
    case Fire => if Fires(n) then Node(n.w, Evicting(n.worker.id), Unset) else n
    case Evict => if n.worker.Evicting? then n.(w := Step(n.w, Uninstall(n.worker.id)), worker := Busy) else n
  }

  function Events(n: Node, es: seq<Event>): Node
    decreases |es|
  {
    if es == [] then n else Events(Next(n, es[0]), es[1..])
  }

  function Start(timeout: int, now: int): Node {
    Node(Init(timeout, now), Busy, Unset)
  }

  /** Polling is one step, and so are peeking and parking, and a timeout and its removal. */
  predicate WholeStep(e: Event) {
    match e
    case Act(op) => !op.Take? && !op.Refresh?
    case Peek => false
    case Select => false
    case Fire => false
    case Evict => false
    case _ => true
  }

  /** A parked worker has peeked the root that is there now, and its timer is the root's expiry. */
  ghost predicate WorkerInv(n: Node) {
    && HeapInv(n.w) && ExactHeap(n.w)
    && !n.worker.Peeked? && !n.worker.Evicting?
    && (n.worker.Parked? ==>
          if n.w.s.timeouts == [] then n.worker.id == ""
          else
            && n.worker.id != ""
            && n.w.s.timeouts[0] == Entry(n.worker.id, n.worker.expires)
            && n.timer == Deadline(n.worker.expires))
  }

  /** No change of the heap goes unannounced. */
  lemma ChangesSignal(w: World, op: Op)
    requires HeapInv(w)
    ensures Step(w, op).s.timeouts != w.s.timeouts ==> Signals(w, op)
  {
    hide Push, RemoveItem, OrderedTo, Distinct;
    HeapAfter(w, op);
    if Unqueues(w, op) && !RemoveSignals(w.s, op.id) {
      assert Step(w, op).s.timeouts == RemoveItem(w.s.timeouts, op.id);
      AbsentStays(w.s.timeouts, op.id);
    }
  }

  lemma AbsentStays(h: seq<Entry<Id>>, id: Id)
    requires IndexOf(h, id) == -1
    ensures RemoveItem(h, id) == h
  {
  }

  lemma RootIsInstalled(n: Node)
    requires HeapInv(n.w) && ExactHeap(n.w) && n.w.s.timeouts != []
    ensures var (id, expires) := NextTimeout(n.w.s);
            && id in n.w.s.filters && !n.w.s.filters[id].hasWs && n.w.s.filters[id].expiresAt == expires
            && id != ""
  {
    var e := n.w.s.timeouts[0];
    assert Entry(e.item, e.key) in n.w.s.timeouts;
  }

  lemma NextKeepsWorker(n: Node, e: Event)
    requires WorkerInv(n) && WholeStep(e)
    ensures WorkerInv(Next(n, e))
  {
    hide Push, RemoveItem, OrderedTo, Distinct, HeapInv, ExactHeap;
    match e
    case Act(op) =>
      StepKeepsHeap(n.w, op);
      StepKeepsExact(n.w, op);
      ChangesSignal(n.w, op);
    case Park =>
      if n.w.s.timeouts != [] { RootIsInstalled(n); }
    case Timeout =>
      if Fires(n) {
        StepKeepsHeap(n.w, Uninstall(n.worker.id));
        StepKeepsExact(n.w, Uninstall(n.worker.id));
      }
    case Wake =>
  }

  lemma {:induction false} EveryRunKeepsWorker(n: Node, es: seq<Event>)
    requires WorkerInv(n) && forall e | e in es :: WholeStep(e)
    ensures WorkerInv(Events(n, es))
    decreases |es|
  {
    if es != [] {
      assert es[0] in es;
      NextKeepsWorker(n, es[0]);
      EveryRunKeepsWorker(Next(n, es[0]), es[1..]);
    }
  }

  /** A timeout with an id uninstalls that one filter; its expiry has passed and is the least of all. */
  lemma TimeoutExpiresTheLeast(timeout: int, start: int, es: seq<Event>)
    requires forall e | e in es :: WholeStep(e)
    requires Fires(Events(Start(timeout, start), es)) && Events(Start(timeout, start), es).worker.id != ""
    ensures var n := Events(Start(timeout, start), es);
            var id := n.worker.id;
            var s := n.w.s;
            var s' := Next(n, Timeout).w.s;
            && id in s.filters && !s.filters[id].hasWs
            && s.filters[id].expiresAt <= n.w.now
            && (forall x | x in s.filters && !s.filters[x].hasWs ::
                  s.filters[id].expiresAt <= s.filters[x].expiresAt)
            && s'.filters == s.filters - {id}
            && |s'.timeouts| == |s.timeouts| - 1
  {
    EveryRunKeepsWorker(Start(timeout, start), es);
    var n := Events(Start(timeout, start), es);
    LeastOf(n);
  }

  lemma LeastOf(n: Node)
    requires WorkerInv(n) && Fires(n) && n.worker.id != ""
    ensures var id := n.worker.id;
            var s := n.w.s;
            var s' := Next(n, Timeout).w.s;
            && id in s.filters && !s.filters[id].hasWs
            && s.filters[id].expiresAt <= n.w.now
            && (forall x | x in s.filters && !s.filters[x].hasWs ::
                  s.filters[id].expiresAt <= s.filters[x].expiresAt)
            && s'.filters == s.filters - {id}
            && |s'.timeouts| == |s.timeouts| - 1
  {
    hide Push, RemoveAt, OrderedTo, Distinct;
    var s := n.w.s;
    RootIsInstalled(n);
    forall x | x in s.filters && !s.filters[x].hasWs
      ensures s.timeouts[0].key <= s.filters[x].expiresAt
    {
      RootLeastIn(s.timeouts, Entry(x, s.filters[x].expiresAt));
    }
    assert n.worker.id in Items(s.timeouts) by { assert s.timeouts[0] in s.timeouts; }
  }

  /** A stale timer after an empty peek removes nothing. */
  lemma EmptyPeekRemovesNothing(n: Node)
    requires WorkerInv(n) && Fires(n) && n.worker.id == ""
    ensures Next(n, Timeout).w == n.w
  {
  }
}

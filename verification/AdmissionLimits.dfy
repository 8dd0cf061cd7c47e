/**
 How far the connection limit is passed: the bound of `Admission` is attained for every number of
 handshakes that the pending counter misses and every growth that a slot check does not see.
 */
module AdmissionLimits {
  import opened ConnectionSpec
  import opened Admission

  /** Different peers. */
  function Name(j: nat): (s: Peer)
    ensures |s| == j
  {
    seq(j, _ => 'p')
  }

  datatype Figures = Figures(unreserved: int, incoming: int, active: int, pending: int)

  ghost function FiguresOf(w: World, d: Direction): Figures {
    Figures(|Unreserved(w, d)|, |Incoming(w, d)|, ActiveCount(w.t.counts, d), PendingCount(w.t.counts, d))
  }

  /** Threads i to n have read that nobody is connected and not yet compared; their peers are new. Those
      before i that are incoming have peers of their own, not connected yet. */
  ghost predicate Crowd(cfg: Config, w: World, d: Direction, i: nat, n: nat) {
    Inv(cfg, w) && Early(w, d) == {} && Shape(w, d, i, n)
  }

  ghost predicate Shape(w: World, d: Direction, i: nat, n: nat) {
    && i <= n
    && (forall j | i <= j < n :: j in w.threads && w.threads[j] == Thread(Name(j), d, Read(0)))
    && (forall j: Tid | j in w.threads :: j < n && (w.threads[j].phase.Read? ==> i <= j))
    && (forall j: Tid | i <= j :: j !in w.reservations)
    && (forall p | p in w.entries || p in w.t.peers :: |p| < i)
    && (forall j | j in Incoming(w, d) :: w.threads[j].peer == Name(j) && !Active(w.t, Name(j), d))
  }

  /** A continuation leads there and stays exposed to no more than k and m. */
  ghost predicate Reaches(cfg: Config, w: World, w': World, d: Direction, k: nat, m: nat) {
    exists es :: Throughout(cfg, w, es, d, k, m) && Admission.Run(cfg, w, es) == w'
  }

  lemma {:induction false} ThroughoutSum(
    cfg: Config, w: World, a: seq<Event>, b: seq<Event>, d: Direction, k: nat, m: nat)
    requires Throughout(cfg, w, a, d, k, m) && Throughout(cfg, Admission.Run(cfg, w, a), b, d, k, m)
    ensures Throughout(cfg, w, a + b, d, k, m)
    decreases |a|
  {
    hide Exposed, Next;
    if a == [] {
      assert a + b == b;
    } else {
      assert (a + b)[1..] == a[1..] + b;
      ThroughoutSum(cfg, Next(cfg, w, a[0]), a[1..], b, d, k, m);
    }
  }

  lemma ReachesOn(cfg: Config, w: World, v: World, x: World, d: Direction, k: nat, m: nat)
    requires Reaches(cfg, w, v, d, k, m) && Reaches(cfg, v, x, d, k, m)
    ensures Reaches(cfg, w, x, d, k, m)
  {
    var a :| Throughout(cfg, w, a, d, k, m) && Admission.Run(cfg, w, a) == v;
    var b :| Throughout(cfg, v, b, d, k, m) && Admission.Run(cfg, v, b) == x;
    ThroughoutSum(cfg, w, a, b, d, k, m);
    RunSum(cfg, w, a, b);
    assert Throughout(cfg, w, a + b, d, k, m) && Admission.Run(cfg, w, a + b) == x;
  }

  lemma ReachesNext(cfg: Config, w: World, e: Event, d: Direction, k: nat, m: nat)
    requires Exposed(w, d, k, m) && Exposed(Next(cfg, w, e), d, k, m)
    ensures Reaches(cfg, w, Next(cfg, w, e), d, k, m)
  {
    hide Exposed, Next;
    var v := Next(cfg, w, e);
    assert [e][1..] == [];
    assert Throughout(cfg, v, [], d, k, m) && Admission.Run(cfg, v, []) == v;
    assert Throughout(cfg, w, [e], d, k, m) && Admission.Run(cfg, w, [e]) == v;
  }

  lemma ReachesSelf(cfg: Config, w: World, d: Direction, k: nat, m: nat)
    requires Exposed(w, d, k, m)
    ensures Reaches(cfg, w, w, d, k, m)
  {
    assert Throughout(cfg, w, [], d, k, m) && Admission.Run(cfg, w, []) == w;
  }

  lemma CrowdIsExposed(cfg: Config, w: World, d: Direction, i: nat, n: nat, k: nat, m: nat)
    requires Crowd(cfg, w, d, i, n) && |Unreserved(w, d)| <= k && (i < n ==> ActiveCount(w.t.counts, d) <= m)
    ensures Exposed(w, d, k, m)
  {
    hide Inv, Unreserved, Early, ActiveCount;
    assert |Early(w, d)| == 0;
    forall j: Tid | Reading(w, j) && w.threads[j].dir == d
      ensures ActiveCount(w.t.counts, d) - w.threads[j].phase.active <= m
    {
      assert j in w.threads && i <= j < n;
      assert w.threads[j] == Thread(Name(j), d, Read(0));
    }
  }

  // ---- steps of the crowd ----

  /** Thread n tests its peer and reads that nobody is connected. */
  lemma Joins(cfg: Config, w: World, d: Direction, n: nat, k: nat, m: nat)
    requires d != Unknown && Crowd(cfg, w, d, 0, n) && FiguresOf(w, d) == Figures(0, 0, 0, 0)
    ensures var w' := AfterReadActive(AfterTest(w, n, Name(n), d), n);
            && Crowd(cfg, w', d, 0, n + 1) && FiguresOf(w', d) == Figures(0, 0, 0, 0)
            && Reaches(cfg, w, w', d, k, m)
  {
    var w1 := AfterTest(w, n, Name(n), d);
    var w2 := AfterReadActive(w1, n);
    assert Name(n) !in w.entries;
    assert w1 == w.(threads := w.threads[n := Thread(Name(n), d, Tested)]);
    assert w2 == w.(threads := w.threads[n := Thread(Name(n), d, Read(0))]);
    hide AfterTest, AfterReadActive, ActiveCount, PendingCount, Exposed, Inv, Reaches, Unreserved, Early, Incoming;
    NextKeepsInv(cfg, w, Test(n, Name(n), d));
    NextKeepsInv(cfg, w1, ReadActive(n));
    SameSets(w, w1, d);
    SameSets(w, w2, d);
    NewReader(cfg, w, w2, d, n);
    CrowdIsExposed(cfg, w, d, 0, n, k, m);
    CrowdIsExposed(cfg, w2, d, 0, n + 1, k, m);
    assert Exposed(w1, d, k, m) by { TestedIsExposed(cfg, w, w1, d, n, k, m); }
    ReachesNext(cfg, w, Test(n, Name(n), d), d, k, m);
    ReachesNext(cfg, w1, ReadActive(n), d, k, m);
    ReachesOn(cfg, w, w1, w2, d, k, m);
  }

  /** A thread that is not past its slot check counts nowhere. */
  lemma SameSets(w: World, w': World, d: Direction)
    requires w'.t == w.t && w'.reservations == w.reservations
    requires forall j | j in w.threads || j in w'.threads ::
               (j in w.threads && j in w'.threads && w'.threads[j] == w.threads[j])
               || ((j in w.threads ==> w.threads[j].phase.Tested? || w.threads[j].phase.Read?)
                   && (j in w'.threads ==> w'.threads[j].phase.Tested? || w'.threads[j].phase.Read?))
    ensures Incoming(w', d) == Incoming(w, d) && Unreserved(w', d) == Unreserved(w, d)
    ensures Early(w', d) == Early(w, d) && FiguresOf(w', d) == FiguresOf(w, d)
  {
    assert Incoming(w', d) == Incoming(w, d);
  }

  lemma NewReader(cfg: Config, w: World, w': World, d: Direction, n: nat)
    requires Crowd(cfg, w, d, 0, n) && Inv(cfg, w')
    requires w' == w.(threads := w.threads[n := Thread(Name(n), d, Read(0))])
    requires Incoming(w', d) == Incoming(w, d) && Early(w', d) == Early(w, d)
    ensures Crowd(cfg, w', d, 0, n + 1)
  {
    hide Inv, Early, Active;
  }

  lemma TestedIsExposed(cfg: Config, w: World, w': World, d: Direction, n: nat, k: nat, m: nat)
    requires Exposed(w, d, k, m) && w'.t == w.t && w' == w.(threads := w.threads[n := Thread(Name(n), d, Tested)])
    requires Unreserved(w', d) == Unreserved(w, d) && Early(w', d) == Early(w, d)
    ensures Exposed(w', d, k, m)
  {
    forall j: Tid | Reading(w', j) ensures Reading(w, j) && w'.threads[j] == w.threads[j] {}
  }

  /** Thread i finds a pending count below the limit. */
  lemma PassesCheck(cfg: Config, w: World, d: Direction, i: nat, n: nat)
    requires d != Unknown && Crowd(cfg, w, d, i, n) && i < n && PendingCount(w.t.counts, d) < Max(cfg, d)
    ensures var w' := AfterReadPending(cfg, w, i);
            var f := FiguresOf(w, d);
            && w' == w.(threads := w.threads[i := Thread(Name(i), d, Checked)])
            && Crowd(cfg, w', d, i + 1, n)
            && FiguresOf(w', d) == f.(unreserved := f.unreserved + 1, incoming := f.incoming + 1)
  {
    hide Inv, Early, Backing, ActiveCount, PendingCount, Active, Unreserved, Incoming;
    var w' := AfterReadPending(cfg, w, i);
    assert w.threads[i] == Thread(Name(i), d, Read(0));
    NextKeepsInv(cfg, w, ReadPending(i));
    assert Kept(w) by { InvKeeps(cfg, w); }
    PassSets(cfg, w, i);
    PassesShape(w, d, i, n);
  }

  lemma InvKeeps(cfg: Config, w: World)
    requires Inv(cfg, w)
    ensures Kept(w)
  {
  }

  lemma KeptThread(w: World, x: Tid)
    requires Kept(w) && x in w.threads
    ensures ThreadKept(w, x)
  {
  }

  lemma PassesShape(w: World, d: Direction, i: nat, n: nat)
    requires Shape(w, d, i, n) && i < n
    ensures Shape(w.(threads := w.threads[i := Thread(Name(i), d, Checked)]), d, i + 1, n)
  {
    assert w.threads[i] == Thread(Name(i), d, Read(0));
    assert Name(i) !in w.t.peers;
  }

  /** A thread that is through stores its entry and counts it. */
  lemma Stores(cfg: Config, w: World, d: Direction, i: nat, n: nat, x: Tid)
    requires Crowd(cfg, w, d, i, n) && x < i && InPhase(w, x, Checked) && w.threads[x].dir == d
    requires Name(x) !in w.entries
    ensures var w' := AfterStore(w, x);
            && Crowd(cfg, w', d, i, n) && FiguresOf(w', d) == FiguresOf(w, d)
            && w' == w.(threads := w.threads[x := Thread(Name(x), d, Stored)],
                        entries := w.entries[Name(x) := Entry(d, x)],
                        reservations := w.reservations[x := Reservation(Name(x), d, false, Held)])
  {
    hide Inv, Early, Backing, ActiveCount, PendingCount, Active, ThreadKept, Unreserved;
    var w' := AfterStore(w, x);
    NextKeepsInv(cfg, w, Store(x));
    InvKeeps(cfg, w);
    StoreFigures(w, d, x);
    assert w.threads[x].peer == Name(x) by { ShapeNames(w, d, i, n, x); }
    StoredShape(w, d, i, n, x);
  }

  lemma ShapeNames(w: World, d: Direction, i: nat, n: nat, x: Tid)
    requires Shape(w, d, i, n) && x in w.threads && Entering(w.threads[x], d)
    ensures w.threads[x].peer == Name(x)
  {
    assert x in Incoming(w, d);
  }

  lemma StoreFigures(w: World, d: Direction, x: Tid)
    requires Kept(w) && InPhase(w, x, Checked)
    ensures var w' := AfterStore(w, x);
            && Early(w', d) == Early(w, d) && Incoming(w', d) == Incoming(w, d) && Unreserved(w', d) == Unreserved(w, d)
            && w'.t == w.t
  {
    KeptThread(w, x);
    StoreKeepsSets(w, x, d);
    hide Kept, Early, Backing;
    var w' := AfterStore(w, x);
    assert Incoming(w', d) == Incoming(w, d);
  }

  lemma StoredShape(w: World, d: Direction, i: nat, n: nat, x: Tid)
    requires Shape(w, d, i, n) && x < i && x in w.threads && Entering(w.threads[x], d)
    ensures Shape(w.(threads := w.threads[x := Thread(Name(x), d, Stored)],
                     entries := w.entries[Name(x) := Entry(d, x)],
                     reservations := w.reservations[x := Reservation(Name(x), d, false, Held)]), d, i, n)
  {
    hide Active;
    assert x in Incoming(w, d);
  }

  lemma CountsEntry(cfg: Config, w: World, d: Direction, i: nat, n: nat, x: Tid)
    requires d != Unknown && Crowd(cfg, w, d, i, n) && x < i && InPhase(w, x, Stored) && w.threads[x].dir == d
    requires x in w.reservations && w.reservations[x].stage == Held
    ensures var w' := AfterCount(w, x);
            var f := FiguresOf(w, d);
            && Crowd(cfg, w', d, i, n)
            && FiguresOf(w', d) == f.(unreserved := f.unreserved - 1, pending := f.pending + 1)
            && w'.threads == w.threads[x := w.threads[x].(phase := Shaking)]
            && w'.entries == w.entries && w'.t.peers == w.t.peers
            && w'.reservations == w.reservations[x := w.reservations[x].(counted := true)]
  {
    hide Inv, Early, Backing, ThreadKept, Shape, Kept, Unreserved, Incoming, AfterCount, PendingCount;
    var w' := AfterCount(w, x);
    NextKeepsInv(cfg, w, Count(x));
    InvKeeps(cfg, w);
    CountFigures(w, d, x);
    PendingCountAfter(cfg, w, Count(x), d);
    CountMoves(w, x);
    MovedShape(w, w', d, i, n, x);
  }

  lemma CountMoves(w: World, x: Tid)
    requires InPhase(w, x, Stored) && x in w.reservations
    ensures var w' := AfterCount(w, x);
            && w'.threads == w.threads[x := w.threads[x].(phase := Shaking)]
            && w'.entries == w.entries && w'.t.peers == w.t.peers
            && w'.reservations == w.reservations[x := w.reservations[x].(counted := true)]
            && forall d :: ActiveCount(w'.t.counts, d) == ActiveCount(w.t.counts, d)
  {
  }

  lemma CountFigures(w: World, d: Direction, x: Tid)
    requires Kept(w) && InPhase(w, x, Stored) && w.threads[x].dir == d
    requires x in w.reservations && w.reservations[x].stage == Held
    ensures var w' := AfterCount(w, x);
            && Early(w', d) == Early(w, d) && Incoming(w', d) == Incoming(w, d)
            && |Unreserved(w', d)| == |Unreserved(w, d)| - 1
  {
    assert ThreadKept(w, x);
    hide AfterCount, Backing, Early, Kept, ThreadKept, ActiveCount, Incoming;
    CountSets(w, x, d);
    CountKeepsIncoming(w, d, x);
    assert Unreserved(AfterCount(w, x), d) == Unreserved(w, d) - {x};
  }

  lemma CountKeepsIncoming(w: World, d: Direction, x: Tid)
    requires InPhase(w, x, Stored) && w.threads[x].dir == d && x in w.reservations
    ensures Incoming(AfterCount(w, x), d) == Incoming(w, d) && x in Incoming(w, d)
  {
    hide AfterCount;
    CountMoves(w, x);
  }

  /** A step of thread x past its slot check that adds no peer. */
  lemma MovedShape(w: World, w': World, d: Direction, i: nat, n: nat, x: Tid)
    requires Shape(w, d, i, n) && x < i && x in w.threads
    requires w'.t.peers == w.t.peers && w'.entries.Keys <= w.entries.Keys
    requires w'.reservations.Keys == w.reservations.Keys
    requires w'.threads == w.threads - {x}
          || exists ph :: w'.threads == w.threads[x := w.threads[x].(phase := ph)] && !ph.Read?
                       && (Entering(w'.threads[x], d) ==> Entering(w.threads[x], d))
    ensures Shape(w', d, i, n)
  {
    forall j | j in Incoming(w', d) ensures w'.threads[j].peer == Name(j) && !Active(w'.t, Name(j), d) {
      assert j in Incoming(w, d);
    }
  }

  lemma Connects(cfg: Config, w: World, d: Direction, i: nat, n: nat, x: Tid)
    requires d != Unknown && Crowd(cfg, w, d, i, n) && x < i && InPhase(w, x, Shaking) && w.threads[x].dir == d
    requires x in w.reservations && w.reservations[x].counted && w.reservations[x].dir == d
    requires w.reservations[x].stage == Held
    ensures var w' := AfterShake(cfg, w, x, true);
            var f := FiguresOf(w, d);
            && Crowd(cfg, w', d, i, n)
            && FiguresOf(w', d) == f.(incoming := f.incoming - 1, active := f.active + 1)
            && w'.threads == w.threads[x := w.threads[x].(phase := Shaken)]
            && w'.entries == w.entries && w'.reservations == w.reservations
  {
    hide Inv, Early, Backing, ThreadKept, Shape, Kept, ActiveCount, PendingCount, AfterShake, Unreserved, Incoming;
    var w' := AfterShake(cfg, w, x, true);
    NextKeepsInv(cfg, w, Shake(x, true));
    PendingCountAfter(cfg, w, Shake(x, true), d);
    ConnectFigures(cfg, w, d, i, n, x);
    ConnectedShape(cfg, w, d, i, n, x);
  }

  lemma ConnectFigures(cfg: Config, w: World, d: Direction, i: nat, n: nat, x: Tid)
    requires d != Unknown && Shape(w, d, i, n) && InPhase(w, x, Shaking) && w.threads[x].dir == d
    requires x in w.reservations && w.reservations[x].counted && w.reservations[x].dir == d
    requires w.reservations[x].stage == Held
    ensures var w' := AfterShake(cfg, w, x, true);
            && Early(w', d) == Early(w, d) && Unreserved(w', d) == Unreserved(w, d)
            && |Incoming(w', d)| == |Incoming(w, d)| - 1
            && ActiveCount(w'.t.counts, d) == ActiveCount(w.t.counts, d) + 1
            && w'.threads == w.threads[x := w.threads[x].(phase := Shaken)]
            && w'.entries == w.entries && w'.reservations == w.reservations
  {
    var w' := AfterShake(cfg, w, x, true);
    assert x in Incoming(w, d);
    AddPeerCounts(cfg, w.t, Name(x), d);
    hide Shape, AddPeer;
    assert Incoming(w', d) == Incoming(w, d) - {x};
    assert Backing(w', d) == Backing(w, d) && Early(w', d) == Early(w, d);
    assert Unreserved(w', d) == Unreserved(w, d);
  }

  lemma ConnectedShape(cfg: Config, w: World, d: Direction, i: nat, n: nat, x: Tid)
    requires Shape(w, d, i, n) && x < i && InPhase(w, x, Shaking) && w.threads[x].dir == d
    ensures Shape(AfterShake(cfg, w, x, true), d, i, n)
  {
    hide UpdateConn, UpdateBootnodes;
    var w' := AfterShake(cfg, w, x, true);
    assert x in Incoming(w, d);
    forall j | j in Incoming(w', d) ensures w'.threads[j].peer == Name(j) && !Active(w'.t, Name(j), d) {
      assert j in Incoming(w, d) && |Name(j)| != |Name(x)|;
    }
  }

  /** Thread x is done: its entry is deleted and given back. */
  lemma Releases(cfg: Config, w: World, d: Direction, i: nat, n: nat, x: Tid)
    requires d != Unknown && Crowd(cfg, w, d, i, n) && x < i && InPhase(w, x, Shaken) && w.threads[x].dir == d
    requires w.threads[x].peer == Name(x) && Name(x) in w.entries && w.entries[Name(x)] == Entry(d, x)
    requires x in w.reservations && w.reservations[x].counted && w.reservations[x].dir == d
    ensures var w1 := AfterDelete(w, x);
            var w' := AfterGiveBack(w1, x);
            var f := FiguresOf(w, d);
            && Crowd(cfg, w1, d, i, n) && FiguresOf(w1, d) == f
            && Crowd(cfg, w', d, i, n) && FiguresOf(w', d) == f.(pending := f.pending - 1)
  {
    hide Inv, Early, Backing, Shape, Kept, ActiveCount, PendingCount, AfterDelete, AfterGiveBack, Unreserved, Incoming;
    InvKeeps(cfg, w);
    DeleteFigures(w, d, x);
    Deletes(cfg, w, d, i, n, x);
    GivesBack(cfg, AfterDelete(w, x), d, i, n, x);
  }

  lemma Deletes(cfg: Config, w: World, d: Direction, i: nat, n: nat, x: Tid)
    requires Crowd(cfg, w, d, i, n) && x < i && InPhase(w, x, Shaken) && w.threads[x].dir == d
    requires w.threads[x].peer == Name(x) && Name(x) in w.entries && w.entries[Name(x)] == Entry(d, x)
    ensures var w' := AfterDelete(w, x);
            Crowd(cfg, w', d, i, n) && FiguresOf(w', d) == FiguresOf(w, d)
  {
    hide Inv, Early, Backing, Shape, Kept, ActiveCount, PendingCount, AfterDelete, Unreserved, Incoming;
    InvKeeps(cfg, w);
    DeleteFigures(w, d, x);
    NextKeepsInv(cfg, w, Delete(x));
    MovedShape(w, AfterDelete(w, x), d, i, n, x);
  }

  lemma GivesBack(cfg: Config, w: World, d: Direction, i: nat, n: nat, x: Tid)
    requires d != Unknown && Crowd(cfg, w, d, i, n) && x < i
    requires x in w.threads && w.threads[x].phase == Deleted(Entry(d, x))
    requires x in w.reservations && w.reservations[x].counted
    ensures var w' := AfterGiveBack(w, x);
            var f := FiguresOf(w, d);
            Crowd(cfg, w', d, i, n) && FiguresOf(w', d) == f.(pending := f.pending - 1)
  {
    hide Inv, Early, Backing, Shape, Kept, ActiveCount, PendingCount, AfterGiveBack, Unreserved, Incoming, ThreadKept;
    InvKeeps(cfg, w);
    KeptThread(w, x);
    GiveBackFigures(w, d, x);
    PendingCountAfter(cfg, w, GiveBack(x), d);
    NextKeepsInv(cfg, w, GiveBack(x));
    MovedShape(w, AfterGiveBack(w, x), d, i, n, x);
  }

  lemma DeleteFigures(w: World, d: Direction, x: Tid)
    requires Kept(w) && InPhase(w, x, Shaken)
    requires w.threads[x].peer in w.entries && w.entries[w.threads[x].peer] == Entry(d, x)
    ensures x in w.reservations
    ensures var w' := AfterDelete(w, x);
            && Early(w', d) == Early(w, d) && Incoming(w', d) == Incoming(w, d) && Unreserved(w', d) == Unreserved(w, d)
            && w'.threads == w.threads[x := w.threads[x].(phase := Deleted(Entry(d, x)))]
            && w'.t == w.t && w'.entries == w.entries - {w.threads[x].peer}
            && w'.reservations == w.reservations[x := w.reservations[x].(stage := Taken(x))]
  {
    DeleteKeepsSets(w, x, d);
    var w' := AfterDelete(w, x);
    assert Incoming(w', d) == Incoming(w, d);
  }

  lemma GiveBackFigures(w: World, d: Direction, x: Tid)
    requires x in w.threads && w.threads[x].phase == Deleted(Entry(d, x)) && ThreadKept(w, x)
    requires w.reservations[x].counted
    ensures var w' := AfterGiveBack(w, x);
            && Early(w', d) == Early(w, d) && Incoming(w', d) == Incoming(w, d) && Unreserved(w', d) == Unreserved(w, d)
            && w'.threads == w.threads - {x} && w'.t.peers == w.t.peers && w'.entries == w.entries
            && w'.reservations.Keys == w.reservations.Keys
            && ActiveCount(w'.t.counts, d) == ActiveCount(w.t.counts, d)
  {
    GiveBackSets(w, x, d);
    var w' := AfterGiveBack(w, x);
    assert Incoming(w', d) == Incoming(w, d);
  }

  // ---- the crowd goes through ----

  lemma {:induction false} Gather(cfg: Config, d: Direction, n: nat, k: nat, m: nat) returns (w: World)
    requires d != Unknown
    ensures Crowd(cfg, w, d, 0, n) && FiguresOf(w, d) == Figures(0, 0, 0, 0)
    ensures Reaches(cfg, Start(), w, d, k, m)
    decreases n
  {
    if n == 0 {
      w := Start();
      StartKeeps(cfg);
      StartIsWithin(d);
      assert Incoming(w, d) == {} && Early(w, d) == {};
      CrowdIsExposed(cfg, w, d, 0, 0, k, m);
      ReachesSelf(cfg, w, d, k, m);
    } else {
      var v := Gather(cfg, d, n - 1, k, m);
      hide Crowd, Reaches, FiguresOf;
      Joins(cfg, v, d, n - 1, k, m);
      w := AfterReadActive(AfterTest(v, n - 1, Name(n - 1), d), n - 1);
      ReachesOn(cfg, Start(), v, w, d, k, m);
    }
  }

  lemma CrowdReaches(cfg: Config, w: World, e: Event, w': World, d: Direction, i: nat, j: nat, n: nat, k: nat, m: nat)
    requires w' == Next(cfg, w, e)
    requires Crowd(cfg, w, d, i, n) && Crowd(cfg, w', d, j, n)
    requires FiguresOf(w, d).unreserved <= k && FiguresOf(w', d).unreserved <= k
    requires FiguresOf(w, d).active <= m && FiguresOf(w', d).active <= m
    ensures Reaches(cfg, w, w', d, k, m)
  {
    hide Next, Crowd;
    CrowdIsExposed(cfg, w, d, i, n, k, m);
    CrowdIsExposed(cfg, w', d, j, n, k, m);
    ReachesNext(cfg, w, e, d, k, m);
  }

  lemma FiguresAre(w: World, d: Direction)
    ensures FiguresOf(w, d).pending == PendingCount(w.t.counts, d)
  {
  }

  /** Thread i passes its check although u others have that the pending counter does not know. */
  lemma Rushes(cfg: Config, w: World, d: Direction, i: nat, n: nat, k: nat, m: nat) returns (w': World)
    requires d != Unknown && Crowd(cfg, w, d, i, n) && i < n
    requires var f := FiguresOf(w, d); f.pending < Max(cfg, d) && f.unreserved < k && f.active <= m
    ensures w' == w.(threads := w.threads[i := Thread(Name(i), d, Checked)])
    ensures Crowd(cfg, w', d, i + 1, n) && Reaches(cfg, w, w', d, k, m)
    ensures var f := FiguresOf(w, d); FiguresOf(w', d) == f.(unreserved := f.unreserved + 1, incoming := f.incoming + 1)
  {
    hide Crowd, Reaches, AfterReadPending, FiguresOf;
    PassesCheck(cfg, w, d, i, n) by { FiguresAre(w, d); }
    w' := AfterReadPending(cfg, w, i);
    CrowdReaches(cfg, w, ReadPending(i), w', d, i, i + 1, n, k, m);
  }

  /** Thread i passes its check and has its entry counted. */
  lemma Holds(cfg: Config, w: World, d: Direction, i: nat, n: nat, k: nat, m: nat) returns (w': World)
    requires d != Unknown && Crowd(cfg, w, d, i, n) && i < n
    requires var f := FiguresOf(w, d); f.pending < Max(cfg, d) && f.unreserved < k && f.active <= m
    ensures Crowd(cfg, w', d, i + 1, n) && Reaches(cfg, w, w', d, k, m)
    ensures var f := FiguresOf(w, d); FiguresOf(w', d) == f.(incoming := f.incoming + 1, pending := f.pending + 1)
    ensures InPhase(w', i, Shaking) && w'.threads[i] == Thread(Name(i), d, Shaking)
    ensures Name(i) in w'.entries && w'.entries[Name(i)] == Entry(d, i)
    ensures i in w'.reservations && w'.reservations[i] == Reservation(Name(i), d, true, Held)
  {
    hide Crowd, Reaches, FiguresOf, Max;
    NewName(cfg, w, d, i, n);
    var w1 := Rushes(cfg, w, d, i, n, k, m);
    w' := Keeps(cfg, w1, d, i, n, k, m);
    ReachesOn(cfg, w, w1, w', d, k, m);
  }

  lemma NewName(cfg: Config, w: World, d: Direction, i: nat, n: nat)
    requires Crowd(cfg, w, d, i, n)
    ensures Name(i) !in w.entries
  {
  }

  lemma Keeps(cfg: Config, w: World, d: Direction, i: nat, n: nat, k: nat, m: nat) returns (w': World)
    requires d != Unknown && Crowd(cfg, w, d, i + 1, n)
    requires i in w.threads && w.threads[i] == Thread(Name(i), d, Checked) && Name(i) !in w.entries
    requires FiguresOf(w, d).unreserved <= k && FiguresOf(w, d).active <= m
    ensures Crowd(cfg, w', d, i + 1, n) && Reaches(cfg, w, w', d, k, m)
    ensures var f := FiguresOf(w, d); FiguresOf(w', d) == f.(unreserved := f.unreserved - 1, pending := f.pending + 1)
    ensures InPhase(w', i, Shaking) && w'.threads[i] == Thread(Name(i), d, Shaking)
    ensures Name(i) in w'.entries && w'.entries[Name(i)] == Entry(d, i)
    ensures i in w'.reservations && w'.reservations[i] == Reservation(Name(i), d, true, Held)
  {
    hide Crowd, Reaches, FiguresOf, AfterStore, AfterCount;
    Stores(cfg, w, d, i + 1, n, i);
    var w1 := AfterStore(w, i);
    CountsEntry(cfg, w1, d, i + 1, n, i);
    w' := AfterCount(w1, i);
    assert w1 == Next(cfg, w, Store(i)) && w' == Next(cfg, w1, Count(i));
    hide Next;
    CrowdReaches(cfg, w, Store(i), w1, d, i + 1, i + 1, n, k, m);
    CrowdReaches(cfg, w1, Count(i), w', d, i + 1, i + 1, n, k, m);
    ReachesOn(cfg, w, w1, w', d, k, m);
  }

  /** Thread i goes all the way. */
  lemma Completes(cfg: Config, w: World, d: Direction, i: nat, n: nat, k: nat, m: nat) returns (w': World)
    requires d != Unknown && Crowd(cfg, w, d, i, n) && i < n
    requires var f := FiguresOf(w, d); f.pending < Max(cfg, d) && f.unreserved < k && f.active < m
    ensures Crowd(cfg, w', d, i + 1, n) && Reaches(cfg, w, w', d, k, m)
    ensures var f := FiguresOf(w, d); FiguresOf(w', d) == f.(active := f.active + 1)
  {
    hide Crowd, Reaches, FiguresOf;
    var w1 := Holds(cfg, w, d, i, n, k, m);
    Connects(cfg, w1, d, i + 1, n, i);
    var w2 := AfterShake(cfg, w1, i, true);
    Releases(cfg, w2, d, i + 1, n, i);
    var w3 := AfterDelete(w2, i);
    w' := AfterGiveBack(w3, i);
    hide AfterShake, AfterDelete, AfterGiveBack;
    assert w2 == Next(cfg, w1, Shake(i, true)) && w3 == Next(cfg, w2, Delete(i)) && w' == Next(cfg, w3, GiveBack(i));
    hide Next;
    CrowdReaches(cfg, w1, Shake(i, true), w2, d, i + 1, i + 1, n, k, m);
    CrowdReaches(cfg, w2, Delete(i), w3, d, i + 1, i + 1, n, k, m);
    CrowdReaches(cfg, w3, GiveBack(i), w', d, i + 1, i + 1, n, k, m);
    ReachesOn(cfg, w, w1, w2, d, k, m);
    ReachesOn(cfg, w, w2, w3, d, k, m);
    ReachesOn(cfg, w, w3, w', d, k, m);
  }

  /** First i of n threads connect... */
  lemma {:induction false} SomeConnect(cfg: Config, d: Direction, i: nat, n: nat, k: nat, m: nat) returns (w: World)
    requires d != Unknown && 1 <= Max(cfg, d) && 1 <= k && i <= n && i <= m
    ensures Crowd(cfg, w, d, i, n) && Reaches(cfg, Start(), w, d, k, m)
    ensures FiguresOf(w, d) == Figures(0, 0, i, 0)
    decreases i
  {
    hide Crowd, Reaches, FiguresOf, Max;
    if i == 0 {
      w := Gather(cfg, d, n, k, m);
    } else {
      var v := SomeConnect(cfg, d, i - 1, n, k, m);
      w := Completes(cfg, v, d, i - 1, n, k, m);
      ReachesOn(cfg, Start(), v, w, d, k, m);
    }
  }

  /** ... then h slots are held... */
  lemma {:induction false} SomeHold(cfg: Config, d: Direction, h: nat, n: nat, k: nat, m: nat) returns (w: World)
    requires d != Unknown && h < Max(cfg, d) && 1 <= k && m + h <= n
    ensures Crowd(cfg, w, d, m + h, n) && Reaches(cfg, Start(), w, d, k, m)
    ensures FiguresOf(w, d) == Figures(0, h, m, h)
    decreases h
  {
    hide Crowd, Reaches, FiguresOf, Max;
    if h == 0 {
      w := SomeConnect(cfg, d, m, n, k, m);
    } else {
      var v := SomeHold(cfg, d, h - 1, n, k, m);
      w := Holds(cfg, v, d, m + h - 1, n, k, m);
      ReachesOn(cfg, Start(), v, w, d, k, m);
    }
  }

  /** ... and then r threads rush in. */
  lemma {:induction false} SomeRush(cfg: Config, d: Direction, h: nat, r: nat, n: nat, k: nat, m: nat)
      returns (w: World)
    requires d != Unknown && h < Max(cfg, d) && r <= k && 1 <= k && m + h + r <= n
    ensures Crowd(cfg, w, d, m + h + r, n) && Reaches(cfg, Start(), w, d, k, m)
    ensures FiguresOf(w, d) == Figures(r, h + r, m, h)
    decreases r
  {
    hide Crowd, Reaches, FiguresOf, Max;
    if r == 0 {
      w := SomeHold(cfg, d, h, n, k, m);
    } else {
      var v := SomeRush(cfg, d, h, r - 1, n, k, m);
      w := Rushes(cfg, v, d, m + h + r - 1, n, k, m);
      ReachesOn(cfg, Start(), v, w, d, k, m);
    }
  }

  // ---- and all of them connect ----

  /** Nobody is in a slot check, and the incoming peers are different and not connected yet. */
  ghost predicate Ready(cfg: Config, w: World, d: Direction) {
    && Inv(cfg, w)
    && (forall j: Tid | Reading(w, j) :: w.threads[j].dir != d)
    && (forall j | j in Incoming(w, d) :: !Active(w.t, w.threads[j].peer, d))
    && (forall j, l | j in Incoming(w, d) && l in Incoming(w, d) && j != l :: w.threads[j].peer != w.threads[l].peer)
  }

  lemma CrowdIsReady(cfg: Config, w: World, d: Direction, n: nat)
    requires Crowd(cfg, w, d, n, n)
    ensures Ready(cfg, w, d) && Shortfall(w, d) == |Unreserved(w, d)|
  {
    forall j, l | j in Incoming(w, d) && l in Incoming(w, d) && j != l
      ensures w.threads[j].peer != w.threads[l].peer
    {
      assert |Name(j)| != |Name(l)|;
    }
  }

  /** Storing and counting an entry lets nobody in and makes up for what is missing. */
  lemma ReservingStaysReady(cfg: Config, w: World, e: Event, d: Direction)
    requires Ready(cfg, w, d) && (e.Store? || e.Count?)
    ensures var w' := Next(cfg, w, e);
            && Ready(cfg, w', d) && Incoming(w', d) == Incoming(w, d) && ActiveIn(w'.t, d) == ActiveIn(w.t, d)
            && Shortfall(w', d) <= Shortfall(w, d)
  {
    hide Next, Inv, Shortfall, Incoming, Active, On, ActiveIn;
    var w' := Next(cfg, w, e);
    ReadyKeeps(cfg, w, d);
    NextKeepsInv(cfg, w, e);
    QuietStep(cfg, w, e, d);
    ReservingMakesUp(cfg, w, e, d);
    ReservingLeavesThreads(cfg, w, e);
    SamePeersSameActive(w.t, w'.t, d);
    forall j: Tid | Reading(w', j) ensures w'.threads[j].dir != d {
      assert Reading(w, j);
    }
    IncomingAreThreads(w, d);
  }

  lemma ReadyKeeps(cfg: Config, w: World, d: Direction)
    requires Ready(cfg, w, d)
    ensures Inv(cfg, w) && Kept(w)
  {
  }

  lemma IncomingAreThreads(w: World, d: Direction)
    ensures forall j | j in Incoming(w, d) :: j in w.threads
  {
  }

  lemma SamePeersSameActive(t: Table, t': Table, d: Direction)
    requires t'.peers == t.peers
    ensures ActiveIn(t', d) == ActiveIn(t, d)
    ensures forall p :: Active(t', p, d) == Active(t, p, d)
  {
  }

  lemma ReservingLeavesThreads(cfg: Config, w: World, e: Event)
    requires e.Store? || e.Count?
    ensures var w' := Next(cfg, w, e);
            && w'.threads.Keys == w.threads.Keys
            && forall j | j in w.threads ::
                 && w'.threads[j].peer == w.threads[j].peer && w'.threads[j].dir == w.threads[j].dir
                 && (w'.threads[j].phase.Read? ==> w'.threads[j] == w.threads[j])
  {
    hide UpdatePending;
  }

  lemma ReservingMakesUp(cfg: Config, w: World, e: Event, d: Direction)
    requires Kept(w) && (e.Store? || e.Count?) && Incoming(Next(cfg, w, e), d) == Incoming(w, d)
    ensures Shortfall(Next(cfg, w, e), d) <= Shortfall(w, d)
  {
    hide Incoming, EntriesKept;
    var w' := Next(cfg, w, e);
    if e.Store? && InPhase(w, e.tid, Checked) {
      assert ThreadKept(w, e.tid);
      StoreKeepsSets(w, e.tid, d);
    } else if e.Count? && InPhase(w, e.tid, Stored) {
      assert ThreadKept(w, e.tid);
      CountSets(w, e.tid, d);
      hide Backing, Early;
      SubsetSize(Unreserved(w', d), Unreserved(w, d));
      SubsetSize(Early(w', d), Early(w, d));
    }
  }

  lemma ReadyConnects(cfg: Config, w: World, x: Tid, d: Direction)
    requires Ready(cfg, w, d) && InPhase(w, x, Shaking) && w.threads[x].dir == d
    ensures var w' := AfterShake(cfg, w, x, true);
            && Ready(cfg, w', d) && Shortfall(w', d) <= Shortfall(w, d)
            && |Incoming(w', d)| == |Incoming(w, d)| - 1 && |ActiveIn(w'.t, d)| == |ActiveIn(w.t, d)| + 1
  {
    hide Inv, Shortfall, AfterShake, ActiveIn, Active, Ready, Incoming, InPhase;
    ShakingIsReady(cfg, w, x, d);
    ConnectSets(cfg, w, x, d);
    var w' := AfterShake(cfg, w, x, true);
    assert w' == Next(cfg, w, Shake(x, true));
    hide Next;
    NextKeepsInv(cfg, w, Shake(x, true));
    ConnectedIsReady(cfg, w, w', x, d);
  }

  lemma ShakingIsReady(cfg: Config, w: World, x: Tid, d: Direction)
    requires Ready(cfg, w, d) && InPhase(w, x, Shaking) && w.threads[x].dir == d
    ensures Inv(cfg, w) && x in Incoming(w, d) && !Active(w.t, w.threads[x].peer, d)
  {
  }

  lemma ConnectedIsReady(cfg: Config, w: World, w': World, x: Tid, d: Direction)
    requires Ready(cfg, w, d) && Inv(cfg, w') && x in Incoming(w, d)
    requires w'.threads == w.threads[x := w.threads[x].(phase := Shaken)] && Incoming(w', d) == Incoming(w, d) - {x}
    requires ActiveIn(w'.t, d) == ActiveIn(w.t, d) + {w.threads[x].peer}
    ensures Ready(cfg, w', d)
  {
    hide Inv, ActiveIn, Active;
    var s, s' := Incoming(w, d), Incoming(w', d);
    assert forall j | j in s' :: j in s && j in w.threads && j != x && w'.threads[j] == w.threads[j];
    forall j | j in s' ensures !Active(w'.t, w'.threads[j].peer, d) {
      ActiveIsMember(w.t, w.threads[j].peer, d);
      ActiveIsMember(w'.t, w.threads[j].peer, d);
    }
  }

  lemma ActiveIsMember(t: Table, p: Peer, d: Direction)
    ensures Active(t, p, d) <==> p in ActiveIn(t, d)
  {
  }

  lemma ConnectSets(cfg: Config, w: World, x: Tid, d: Direction)
    requires InPhase(w, x, Shaking) && w.threads[x].dir == d && !Active(w.t, w.threads[x].peer, d)
    ensures var w' := AfterShake(cfg, w, x, true);
            && w'.threads == w.threads[x := w.threads[x].(phase := Shaken)]
            && Incoming(w', d) == Incoming(w, d) - {x} && |Incoming(w', d)| == |Incoming(w, d)| - 1
            && ActiveIn(w'.t, d) == ActiveIn(w.t, d) + {w.threads[x].peer}
            && |ActiveIn(w'.t, d)| == |ActiveIn(w.t, d)| + 1
            && Shortfall(w', d) <= Shortfall(w, d)
  {
    var w' := AfterShake(cfg, w, x, true);
    var p := w.threads[x].peer;
    AddPeerSets(cfg, w.t, p, d, d);
    assert p !in ActiveIn(w.t, d) && x in Incoming(w, d);
    hide AddPeer, ActiveIn, Active;
    assert Incoming(w', d) == Incoming(w, d) - {x};
    assert Early(w', d) == Early(w, d) && Backing(w', d) == Backing(w, d);
    SubsetSize(Unreserved(w', d), Unreserved(w, d));
  }

  lemma ReadyIsExposed(cfg: Config, w: World, d: Direction, k: nat, m: nat)
    requires Ready(cfg, w, d) && Shortfall(w, d) <= k
    ensures Exposed(w, d, k, m)
  {
  }

  lemma ReadyReaches(cfg: Config, w: World, e: Event, w': World, d: Direction, k: nat, m: nat)
    requires w' == Next(cfg, w, e)
    requires Ready(cfg, w, d) && Shortfall(w, d) <= k && Ready(cfg, w', d) && Shortfall(w', d) <= k
    ensures Reaches(cfg, w, w', d, k, m)
  {
    hide Next, Ready, Shortfall, Reaches, Exposed;
    ReadyIsExposed(cfg, w, d, k, m);
    ReadyIsExposed(cfg, w', d, k, m);
    ReachesNext(cfg, w, e, d, k, m);
  }

  lemma ReservingReaches(cfg: Config, w: World, e: Event, d: Direction, k: nat, m: nat) returns (w': World)
    requires Ready(cfg, w, d) && Shortfall(w, d) <= k && (e.Store? || e.Count?)
    ensures w' == Next(cfg, w, e)
    ensures Ready(cfg, w', d) && Shortfall(w', d) <= k && Reaches(cfg, w, w', d, k, m)
    ensures Incoming(w', d) == Incoming(w, d) && ActiveIn(w'.t, d) == ActiveIn(w.t, d)
  {
    hide Next, Ready, Shortfall, Reaches, Incoming, ActiveIn;
    w' := Next(cfg, w, e);
    ReservingStaysReady(cfg, w, e, d);
    ReadyReaches(cfg, w, e, w', d, k, m);
  }

  /** One incoming thread connects, from wherever it is. */
  lemma OneConnects(cfg: Config, w: World, x: Tid, d: Direction, k: nat, m: nat) returns (w': World)
    requires Ready(cfg, w, d) && Shortfall(w, d) <= k && x in Incoming(w, d)
    ensures Ready(cfg, w', d) && Shortfall(w', d) <= k && Reaches(cfg, w, w', d, k, m)
    ensures |Incoming(w', d)| == |Incoming(w, d)| - 1 && |ActiveIn(w'.t, d)| == |ActiveIn(w.t, d)| + 1
  {
    hide Shortfall, Reaches, Incoming, ActiveIn, AfterStore, AfterCount, AfterShake, Inv, InPhase;
    Reserves(cfg, w, x, d);
    hide Ready;
    var w1 := ReservingReaches(cfg, w, Store(x), d, k, m);
    var w2 := ReservingReaches(cfg, w1, Count(x), d, k, m);
    ReadyConnects(cfg, w2, x, d);
    w' := Next(cfg, w2, Shake(x, true));
    ReadyReaches(cfg, w2, Shake(x, true), w', d, k, m);
    hide Next;
    ReachesOn(cfg, w, w1, w2, d, k, m);
    ReachesOn(cfg, w, w2, w', d, k, m);
  }

  lemma Reserves(cfg: Config, w: World, x: Tid, d: Direction)
    requires Inv(cfg, w) && x in Incoming(w, d)
    ensures var w2 := AfterCount(AfterStore(w, x), x);
            InPhase(w2, x, Shaking) && w2.threads[x].dir == d
  {
    hide TableTally, PendingTally, EntriesKept, ReservationKept, UpdatePending;
    assert ThreadKept(w, x);
  }

  lemma {:induction false} AllConnect(cfg: Config, w: World, d: Direction, k: nat, m: nat) returns (w': World)
    requires Ready(cfg, w, d) && Shortfall(w, d) <= k
    ensures Reaches(cfg, w, w', d, k, m) && Inv(cfg, w')
    ensures |ActiveIn(w'.t, d)| == |ActiveIn(w.t, d)| + |Incoming(w, d)|
    decreases |Incoming(w, d)|
  {
    if Incoming(w, d) == {} {
      w' := w;
      ReadyIsExposed(cfg, w, d, k, m);
      ReachesSelf(cfg, w, d, k, m);
    } else {
      var x :| x in Incoming(w, d);
      hide Ready, Shortfall, Reaches, Incoming, ActiveIn, Inv;
      var v := OneConnects(cfg, w, x, d, k, m);
      w' := AllConnect(cfg, v, d, k, m);
      ReachesOn(cfg, w, v, w', d, k, m);
    }
  }

  /** The bound is attained: for every limit of at least one, every k and every m there is a run from
      the start that ends with exactly so many active connections. */
  lemma BoundAttained(cfg: Config, d: Direction, k: nat, m: nat) returns (es: seq<Event>)
    requires d != Unknown && 1 <= k
    requires 1 <= if d == Inbound then cfg.maxInbound else cfg.maxOutbound
    ensures Throughout(cfg, Start(), es, d, k, m)
    ensures var limit := if d == Inbound then cfg.maxInbound else cfg.maxOutbound;
            |ActiveIn(Admission.Run(cfg, Start(), es).t, d)| == limit + k + m - 1
  {
    var h := Max(cfg, d) - 1;
    var n := m + h + k;
    var w := SomeRush(cfg, d, h, k, n, k, m);
    CrowdIsReady(cfg, w, d, n);
    ActiveIsCounted(cfg, w, d);
    var w' := AllConnect(cfg, w, d, k, m);
    ReachesOn(cfg, Start(), w, w', d, k, m);
    es :| Throughout(cfg, Start(), es, d, k, m) && Admission.Run(cfg, Start(), es) == w';
  }

  // ---- where the reads and the writes come apart ----

  /** A thread whose entry stands connects and releases. */
  lemma Finishes(cfg: Config, w: World, x: Tid, p: Peer, d: Direction)
    requires InPhase(w, x, Shaking) && w.threads[x].peer == p && w.threads[x].dir == d && d != Unknown
    requires p in w.entries && w.entries[p].dir == d && !Active(w.t, p, d)
    ensures var w' := AfterGiveBack(AfterDelete(AfterShake(cfg, w, x, true), x), x);
            && ActiveCount(w'.t.counts, d) == ActiveCount(w.t.counts, d) + 1
            && PendingCount(w'.t.counts, d) == PendingCount(w.t.counts, d) - 1
            && w'.threads == w.threads - {x} && w'.entries == w.entries - {p}
            && (forall q | q != p :: Active(w'.t, q, d) == Active(w.t, q, d))
            && w'.reservations.Keys == w.reservations.Keys
  {
    var w1 := AfterShake(cfg, w, x, true);
    var w2 := AfterDelete(w1, x);
    AddPeerCounts(cfg, w.t, p, d);
    PendingCountsStay(cfg, w.t, p, d);
    assert forall q | q != p :: Active(w1.t, q, d) == Active(w.t, q, d);
    hide AddPeer;
    assert w2.threads[x].phase == Deleted(w.entries[p]) && w2.t == w1.t;
    assert w2.threads - {x} == w.threads - {x};
  }

  /** A thread that has read the active count passes if the pending count is low enough by then. */
  lemma GoesOn(cfg: Config, w: World, x: Tid, p: Peer, d: Direction, active: int)
    requires d != Unknown && x in w.threads && w.threads[x] == Thread(p, d, Read(active))
    requires active + PendingCount(w.t.counts, d) < Max(cfg, d)
    requires p !in w.entries && !Active(w.t, p, d)
    ensures var w' := AfterShake(cfg, AfterCount(AfterStore(AfterReadPending(cfg, w, x), x), x), x, true);
            ActiveCount(w'.t.counts, d) == ActiveCount(w.t.counts, d) + 1
  {
    var w1 := AfterReadPending(cfg, w, x);
    var w2 := AfterCount(AfterStore(w1, x), x);
    assert w2.threads[x] == Thread(p, d, Shaking) && w2.t.peers == w.t.peers;
    AddPeerCounts(cfg, w2.t, p, d);
  }

  /** One callback at a time, every handshake reserved: a handshake that ends between the two reads of
      another's slot check is seen in neither, and the limit is passed. */
  lemma ReleaseBetweenReads(cfg: Config, w: World, a: Tid, b: Tid, p: Peer, q: Peer, d: Direction)
    requires d != Unknown && p != q && b !in w.threads && b !in w.reservations && q !in w.entries
    requires InPhase(w, a, Shaking) && w.threads[a].peer == p && w.threads[a].dir == d
    requires p in w.entries && w.entries[p].dir == d && !Active(w.t, p, d) && !Active(w.t, q, d)
    requires ActiveCount(w.t.counts, d) == Max(cfg, d) - 1 && PendingCount(w.t.counts, d) == 1
    ensures var es := [Test(b, q, d), ReadActive(b), Shake(a, true), Delete(a), GiveBack(a),
                       ReadPending(b), Store(b), Count(b), Shake(b, true)];
            ActiveCount(Admission.Run(cfg, w, es).t.counts, d) == Max(cfg, d) + 1
  {
    hide AfterShake, AfterDelete, AfterGiveBack, AfterReadPending, AfterStore, AfterCount, PendingCount;
    var w1 := AfterReadActive(AfterTest(w, b, q, d), b);
    assert w1 == w.(threads := w.threads[b := Thread(q, d, Read(ActiveCount(w.t.counts, d)))]);
    var w2 := AfterGiveBack(AfterDelete(AfterShake(cfg, w1, a, true), a), a);
    Finishes(cfg, w1, a, p, d);
    GoesOn(cfg, w2, b, q, d, ActiveCount(w.t.counts, d));
    hide AfterTest, AfterReadActive, ActiveCount;
    ThreeParts(cfg, w, a, b, q, d);
  }

  lemma ThreeParts(cfg: Config, w: World, a: Tid, b: Tid, q: Peer, d: Direction)
    ensures var w1 := AfterReadActive(AfterTest(w, b, q, d), b);
            var w2 := AfterGiveBack(AfterDelete(AfterShake(cfg, w1, a, true), a), a);
            Admission.Run(cfg, w, [Test(b, q, d), ReadActive(b), Shake(a, true), Delete(a), GiveBack(a),
                                   ReadPending(b), Store(b), Count(b), Shake(b, true)])
            == AfterShake(cfg, AfterCount(AfterStore(AfterReadPending(cfg, w2, b), b), b), b, true)
  {
    hide AfterShake, AfterDelete, AfterGiveBack, AfterReadPending, AfterStore, AfterCount, AfterTest, AfterReadActive;
    var w1 := AfterReadActive(AfterTest(w, b, q, d), b);
    var w2 := AfterGiveBack(AfterDelete(AfterShake(cfg, w1, a, true), a), a);
    var looks, ends := [Test(b, q, d), ReadActive(b)], [Shake(a, true), Delete(a), GiveBack(a)];
    var goes := [ReadPending(b), Store(b), Count(b), Shake(b, true)];
    RunOfTwo(cfg, w, looks);
    RunOfThree(cfg, w1, ends);
    RunOfFour(cfg, w2, goes);
    hide Next;
    RunSum(cfg, w, looks, ends);
    RunSum(cfg, w, looks + ends, goes);
    assert looks + ends + goes == [Test(b, q, d), ReadActive(b), Shake(a, true), Delete(a), GiveBack(a),
                                   ReadPending(b), Store(b), Count(b), Shake(b, true)];
  }

  lemma RunOfFour(cfg: Config, w: World, es: seq<Event>)
    requires |es| == 4
    ensures Admission.Run(cfg, w, es) == Next(cfg, Next(cfg, Next(cfg, Next(cfg, w, es[0]), es[1]), es[2]), es[3])
  {
    hide Next;
    RunFrom(cfg, w, es, 0);
    RunOfThree(cfg, Next(cfg, w, es[0]), es[1..]);
    assert es[0..] == es;
  }

  /** An entry deleted before it is counted: the pending counter is below zero for a while. */
  lemma DeletedUncounted(cfg: Config, w: World, a: Tid, b: Tid, p: Peer, d: Direction)
    requires d != Unknown && InPhase(w, b, Shaken) && w.threads[b].peer == p && a != b
    requires InPhase(w, a, Stored) && p in w.entries && w.entries[p] == Entry(d, a)
    requires PendingCount(w.t.counts, d) == 0
    ensures var w' := Admission.Run(cfg, w, [Delete(b), GiveBack(b)]);
            && PendingCount(w'.t.counts, d) == -1 && InPhase(w', a, Stored)
  {
    RunOfTwo(cfg, w, [Delete(b), GiveBack(b)]);
  }

  /** Two threads of one peer pass the slot check together, one stores the entry and the other finds it. */
  lemma TwoOfOnePeer(cfg: Config, p: Peer, d: Direction) returns (w: World)
    requires d != Unknown && 1 <= Max(cfg, d)
    ensures w == Admission.Run(cfg, Start(), [Test(0, p, d), Test(1, p, d), ReadActive(0), ReadActive(1)])
    ensures w.t == Start().t && w.entries == map[] && w.reservations == map[]
    ensures w.threads == map[0 := Thread(p, d, Read(0)), 1 := Thread(p, d, Read(0))]
  {
    w := Admission.Run(cfg, Start(), [Test(0, p, d), Test(1, p, d), ReadActive(0), ReadActive(1)]);
    RunOfFour(cfg, Start(), [Test(0, p, d), Test(1, p, d), ReadActive(0), ReadActive(1)]);
  }

  lemma OneStores(cfg: Config, w: World, p: Peer, d: Direction) returns (w': World)
    requires d != Unknown && 1 <= Max(cfg, d)
    requires w.t == Start().t && w.entries == map[] && w.reservations == map[]
    requires w.threads == map[0 := Thread(p, d, Read(0)), 1 := Thread(p, d, Read(0))]
    ensures w' == Admission.Run(cfg, w, [ReadPending(0), ReadPending(1), Store(0), Store(1)])
    ensures w'.t == w.t && w'.entries == map[p := Entry(d, 0)]
    ensures w'.threads == map[0 := Thread(p, d, Stored), 1 := Thread(p, d, Shaking)]
  {
    RunOfFour(cfg, w, [ReadPending(0), ReadPending(1), Store(0), Store(1)]);
    hide Admission.Run;
    w' := Admission.Run(cfg, w, [ReadPending(0), ReadPending(1), Store(0), Store(1)]);
    var w2 := AfterReadPending(cfg, AfterReadPending(cfg, w, 0), 1);
    assert w2 == w.(threads := map[0 := Thread(p, d, Checked), 1 := Thread(p, d, Checked)]);
    hide AfterReadPending;
    assert w' == AfterStore(AfterStore(w2, 0), 1);
  }

  /** The run of two threads of one peer. */
  function TwoThreads(p: Peer, d: Direction): seq<Event> {
    [Test(0, p, d), Test(1, p, d), ReadActive(0), ReadActive(1)]
    + ([ReadPending(0), ReadPending(1), Store(0), Store(1)] + ([Shake(1, false)] + [Delete(1), GiveBack(1)]))
  }

  lemma Shakes(cfg: Config, w: World, p: Peer, d: Direction)
    requires w.entries == map[p := Entry(d, 0)]
    requires w.threads == map[0 := Thread(p, d, Stored), 1 := Thread(p, d, Shaking)]
    ensures var w' := Admission.Run(cfg, w, [Shake(1, false)]);
            w' == w.(threads := map[0 := Thread(p, d, Stored), 1 := Thread(p, d, Shaken)])
  {
    assert [Shake(1, false)][1..] == [];
    hide AddPeer;
  }

  /** So the pending counter gets below zero in a run from the start, for every limit of at least one. */
  lemma PendingBelowZero(cfg: Config, p: Peer, d: Direction)
    requires d != Unknown
    requires 1 <= if d == Inbound then cfg.maxInbound else cfg.maxOutbound
    ensures var c := Admission.Run(cfg, Start(), TwoThreads(p, d)).t.counts;
            (if d == Inbound then c.pendingInbound else c.pendingOutbound) == -1
  {
    hide Admission.Run;
    var looks := [Test(0, p, d), Test(1, p, d), ReadActive(0), ReadActive(1)];
    var passes := [ReadPending(0), ReadPending(1), Store(0), Store(1)];
    var shakes, ends := [Shake(1, false)], [Delete(1), GiveBack(1)];
    var w1 := TwoOfOnePeer(cfg, p, d);
    var w2 := OneStores(cfg, w1, p, d);
    var w3 := Admission.Run(cfg, w2, shakes);
    Shakes(cfg, w2, p, d);
    DeletedUncounted(cfg, w3, 0, 1, p, d);
    RunSum(cfg, w2, shakes, ends);
    RunSum(cfg, w1, passes, shakes + ends);
    RunSum(cfg, Start(), looks, passes + (shakes + ends));
  }

  /** In any reachable world it is below zero exactly when more reservations were given back before they
      were counted than are counted and not given back. */
  lemma BelowZeroIff(cfg: Config, es: seq<Event>, d: Direction)
    requires d != Unknown
    ensures var w := Admission.Run(cfg, Start(), es);
            PendingCount(w.t.counts, d) < 0 <==> |Early(w, d)| > |Backing(w, d)|
  {
    StartKeeps(cfg);
    RunKeepsInv(cfg, Start(), es);
  }
}

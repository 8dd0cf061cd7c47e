/**
 Admission of connections as a concurrent protocol (core/network/identity/identity.go:86-192).

 Each connection runs the connected callback and then a handshake goroutine; together they are a
 thread here. A thread tests for a pending handshake, reads the two counters of the slot check one
 after the other, stores a pending entry and counts it, shakes hands (which adds the peer or not),
 and at last deletes the pending entry of its peer, whoever stored it, and gives its count back.
 Peers may disconnect at any time. The table is only looked at under its lock, so a peer joins or
 leaves it when its counter changes.

 The callback takes no lock, so other threads come in between any two of these steps. When they do
 not (`Admit`) the limit holds. Otherwise two things let it be exceeded: handshakes past the slot
 check that the pending counter does not count, and active counts that have grown since they were
 read. `AdmissionLimits` shows that both do, to the full.
 */
module Admission {
  import opened ConnectionSpec

  type Tid = nat

  /** What is stored for a pending peer; `owner` says which thread stored it, which the program does
      not keep. */
  datatype Entry = Entry(dir: Direction, owner: Tid)

  datatype Phase =
    | Tested
    | Read(active: int)
    | Checked
    | Stored
    | Shaking
    | Shaken
    | Deleted(entry: Entry)

  datatype Thread = Thread(peer: Peer, dir: Direction, phase: Phase)

  /** Where a thread's pending entry is: still stored, deleted by a thread, or given back as well. */
  datatype Stage = Held | Taken(taker: Tid) | Returned

  /** The history of the entry a thread stored, for the proofs only. */
  datatype Reservation = Reservation(peer: Peer, dir: Direction, counted: bool, stage: Stage)

  datatype World = World(
    t: Table, entries: map<Peer, Entry>, threads: map<Tid, Thread>, reservations: map<Tid, Reservation>)

  datatype Event =
    | Test(tid: Tid, p: Peer, d: Direction)
    | ReadActive(tid: Tid)
    | ReadPending(tid: Tid)
    | Store(tid: Tid)
    | Count(tid: Tid)
    | Shake(tid: Tid, save: bool)
    | Delete(tid: Tid)
    | GiveBack(tid: Tid)
    | Lost(p: Peer)

  function Start(): World {
    World(Init().t, map[], map[], map[])
  }

  predicate InPhase(w: World, tid: Tid, phase: Phase) {
    tid in w.threads && w.threads[tid].phase == phase
  }

  function MovedTo(w: World, tid: Tid, phase: Phase): World
    requires tid in w.threads
  {
    w.(threads := w.threads[tid := w.threads[tid].(phase := phase)])
  }

  function Gone(w: World, tid: Tid): World {
    w.(threads := w.threads - {tid})
  }

  function WithPending(w: World, delta: int, d: Direction): World {
    w.(t := w.t.(counts := UpdatePending(w.t.counts, delta, d)))
  }

  function Staged(w: World, owner: Tid, stage: Stage): World {
    if owner !in w.reservations then w
    else w.(reservations := w.reservations[owner := w.reservations[owner].(stage := stage)])
  }

  /** Threads are new ones. */
  function AfterTest(w: World, tid: Tid, p: Peer, d: Direction): World {
    if tid in w.threads || tid in w.reservations || p in w.entries then w
    else w.(threads := w.threads[tid := Thread(p, d, Tested)])
  }

  /** The first load of the slot check; without a direction there is no slot. */
  function AfterReadActive(w: World, tid: Tid): World {
    if !InPhase(w, tid, Tested) then w
    else if w.threads[tid].dir == Unknown then Gone(w, tid)
    else MovedTo(w, tid, Read(ActiveCount(w.t.counts, w.threads[tid].dir)))
  }

  predicate Reading(w: World, tid: Tid) {
    tid in w.threads && w.threads[tid].phase.Read?
  }

  /** The second load and the comparison. */
  predicate Passes(cfg: Config, w: World, tid: Tid)
    requires Reading(w, tid)
  {
    var th := w.threads[tid];
    th.phase.active + PendingCount(w.t.counts, th.dir) < Max(cfg, th.dir)
  }

  function AfterReadPending(cfg: Config, w: World, tid: Tid): World {
    if !Reading(w, tid) then w
    else if Passes(cfg, w, tid) then MovedTo(w, tid, Checked)
    else Gone(w, tid)
  }

  /** `LoadOrStore`: a peer that is stored by now is not counted again. */
  function AfterStore(w: World, tid: Tid): World {
    if !InPhase(w, tid, Checked) then w
    else
      var th := w.threads[tid];
      if th.peer in w.entries then MovedTo(w, tid, Shaking)
      else
        MovedTo(w, tid, Stored).(
          entries := w.entries[th.peer := Entry(th.dir, tid)],
          reservations := w.reservations[tid := Reservation(th.peer, th.dir, false, Held)])
  }

  function AfterCount(w: World, tid: Tid): World {
    if !InPhase(w, tid, Stored) || tid !in w.reservations then w
    else
      WithPending(MovedTo(w, tid, Shaking), 1, w.threads[tid].dir).(
        reservations := w.reservations[tid := w.reservations[tid].(counted := true)])
  }

  function AfterShake(cfg: Config, w: World, tid: Tid, save: bool): World {
    if !InPhase(w, tid, Shaking) then w
    else
      var th := w.threads[tid];
      MovedTo(w, tid, Shaken).(t := if save then AddPeer(cfg, w.t, th.peer, th.dir) else w.t)
  }

  /** `LoadAndDelete`: whoever stored the entry. */
  function AfterDelete(w: World, tid: Tid): World {
    if !InPhase(w, tid, Shaken) then w
    else
      var p := w.threads[tid].peer;
      if p !in w.entries then Gone(w, tid)
      else
        var e := w.entries[p];
        Staged(MovedTo(w, tid, Deleted(e)).(entries := w.entries - {p}), e.owner, Taken(tid))
  }

  predicate Deleting(w: World, tid: Tid) {
    tid in w.threads && w.threads[tid].phase.Deleted?
  }

  function AfterGiveBack(w: World, tid: Tid): World {
    if !Deleting(w, tid) then w
    else
      var e := w.threads[tid].phase.entry;
      Staged(WithPending(Gone(w, tid), -1, e.dir), e.owner, Returned)
  }

  function AfterLost(cfg: Config, w: World, p: Peer): World {
    w.(t := RemovePeer(cfg, w.t, p))
  }

  /** A step that is not enabled leaves the world alone. */
  function Next(cfg: Config, w: World, e: Event): World {
    match e
    case Test(tid, p, d) => AfterTest(w, tid, p, d)
    case ReadActive(tid) => AfterReadActive(w, tid)
    case ReadPending(tid) => AfterReadPending(cfg, w, tid)
    case Store(tid) => AfterStore(w, tid)
    case Count(tid) => AfterCount(w, tid)
    case Shake(tid, save) => AfterShake(cfg, w, tid, save)
    case Delete(tid) => AfterDelete(w, tid)
    case GiveBack(tid) => AfterGiveBack(w, tid)
    case Lost(p) => AfterLost(cfg, w, p)
  }

  function Run(cfg: Config, w: World, es: seq<Event>): World
    decreases |es|
  {
    if es == [] then w else Run(cfg, Next(cfg, w, es[0]), es[1..])
  }

  lemma {:induction false} RunSum(cfg: Config, w: World, a: seq<Event>, b: seq<Event>)
    ensures Run(cfg, w, a + b) == Run(cfg, Run(cfg, w, a), b)
    decreases |a|
  {
    if a == [] {
      assert a + b == b;
    } else {
      assert (a + b)[1..] == a[1..] + b;
      RunSum(cfg, Next(cfg, w, a[0]), a[1..], b);
    }
  }

  lemma RunFrom(cfg: Config, w: World, es: seq<Event>, i: nat)
    requires i < |es|
    ensures Run(cfg, w, es[i..]) == Run(cfg, Next(cfg, w, es[i]), es[i + 1..])
  {
    hide Next;
    assert es[i..][1..] == es[i + 1..];
  }

  lemma RunOfTwo(cfg: Config, w: World, es: seq<Event>)
    requires |es| == 2
    ensures Run(cfg, w, es) == Next(cfg, Next(cfg, w, es[0]), es[1])
  {
    hide Next;
    RunFrom(cfg, w, es, 0);
    RunFrom(cfg, Next(cfg, w, es[0]), es, 1);
    assert es[0..] == es;
  }

  lemma RunOfThree(cfg: Config, w: World, es: seq<Event>)
    requires |es| == 3
    ensures Run(cfg, w, es) == Next(cfg, Next(cfg, Next(cfg, w, es[0]), es[1]), es[2])
  {
    hide Next;
    RunFrom(cfg, w, es, 0);
    RunOfTwo(cfg, Next(cfg, w, es[0]), es[1..]);
    assert es[0..] == es;
  }

  // ---- what is kept of reservations ----

  ghost predicate EntriesKept(w: World) {
    && (forall p | p in w.entries ::
          var e := w.entries[p];
          && e.owner in w.reservations
          && var r := w.reservations[e.owner]; r.peer == p && r.dir == e.dir && r.stage == Held)
    && (forall o | o in w.reservations && w.reservations[o].stage == Held ::
          w.reservations[o].peer in w.entries && w.entries[w.reservations[o].peer].owner == o)
  }

  ghost predicate ThreadKept(w: World, tid: Tid)
    requires tid in w.threads
  {
    var th := w.threads[tid];
    match th.phase
    case Tested => tid !in w.reservations
    case Read(_) => tid !in w.reservations && th.dir != Unknown
    case Checked => tid !in w.reservations
    case Stored => tid in w.reservations && !w.reservations[tid].counted && w.reservations[tid].dir == th.dir
    case Shaking => tid in w.reservations ==> w.reservations[tid].counted
    case Shaken => tid in w.reservations ==> w.reservations[tid].counted
    case Deleted(e) =>
      && e.owner in w.reservations && w.reservations[e.owner].stage == Taken(tid)
      && w.reservations[e.owner].dir == e.dir
      && (tid in w.reservations ==> w.reservations[tid].counted)
  }

  ghost predicate ReservationKept(w: World, o: Tid)
    requires o in w.reservations
  {
    var r := w.reservations[o];
    && (!r.counted ==> InPhase(w, o, Stored))
    && (r.stage.Taken? ==> InPhase(w, r.stage.taker, Deleted(Entry(r.dir, o))))
  }

  ghost predicate Kept(w: World) {
    && EntriesKept(w)
    && (forall tid | tid in w.threads :: ThreadKept(w, tid))
    && (forall o | o in w.reservations :: ReservationKept(w, o))
  }

  /** Reservations that the pending counter has counted and not given back... */
  ghost function Backing(w: World, d: Direction): set<Tid> {
    set o | o in w.reservations && w.reservations[o].dir == d
      && w.reservations[o].counted && w.reservations[o].stage != Returned
  }

  /** ... and those given back before they were counted. */
  ghost function Early(w: World, d: Direction): set<Tid> {
    set o | o in w.reservations && w.reservations[o].dir == d
      && !w.reservations[o].counted && w.reservations[o].stage == Returned
  }

  ghost predicate PendingTally(w: World, d: Direction) {
    PendingCount(w.t.counts, d) == |Backing(w, d)| - |Early(w, d)|
  }

  ghost predicate Inv(cfg: Config, w: World) {
    && TableTally(cfg, w.t) && Kept(w)
    && PendingTally(w, Inbound) && PendingTally(w, Outbound)
  }

  // Each kind of step keeps them.

  /** The steps that leave entries and reservations alone. */
  lemma CallbackKeepsKept(cfg: Config, w: World, e: Event)
    requires Kept(w) && (e.Test? || e.ReadActive? || e.ReadPending? || e.Shake? || e.Lost?)
    ensures Next(cfg, w, e).reservations == w.reservations && Next(cfg, w, e).entries == w.entries
    ensures Kept(Next(cfg, w, e))
  {
    hide AddPeer, RemovePeer, ActiveCount, PendingCount, AfterStore, AfterCount, AfterDelete, AfterGiveBack;
    var w' := Next(cfg, w, e);
    hide EntriesKept;
    assert EntriesKept(w') by {
      EntriesStay(w, w');
    }
    forall tid | tid in w'.threads ensures ThreadKept(w', tid) {
      CallbackKeepsThread(cfg, w, e, tid);
    }
    forall o | o in w'.reservations ensures ReservationKept(w', o) {
      assert ReservationKept(w, o);
    }
  }

  lemma CallbackKeepsThread(cfg: Config, w: World, e: Event, tid: Tid)
    requires e.Test? || e.ReadActive? || e.ReadPending? || e.Shake? || e.Lost?
    requires tid in Next(cfg, w, e).threads && (tid in w.threads ==> ThreadKept(w, tid))
    ensures ThreadKept(Next(cfg, w, e), tid)
  {
    hide AddPeer, RemovePeer, ActiveCount, PendingCount, AfterStore, AfterCount, AfterDelete, AfterGiveBack;
  }

  lemma EntriesStay(w: World, w': World)
    requires EntriesKept(w) && w'.entries == w.entries && w'.reservations == w.reservations
    ensures EntriesKept(w')
  {
  }

  lemma StoreKeepsKept(w: World, tid: Tid)
    requires Kept(w)
    ensures Kept(AfterStore(w, tid))
  {
    if InPhase(w, tid, Checked) {
      var w' := AfterStore(w, tid);
      assert ThreadKept(w, tid);
      StoreKeepsEntries(w, tid);
      forall x | x in w'.threads ensures ThreadKept(w', x) {
        StoreKeepsThread(w, tid, x);
      }
      forall o | o in w'.reservations ensures ReservationKept(w', o) {
        StoreKeepsReservation(w, tid, o);
      }
      hide EntriesKept, ThreadKept, ReservationKept, AfterStore;
    }
  }

  lemma StoreKeepsEntries(w: World, tid: Tid)
    requires EntriesKept(w) && InPhase(w, tid, Checked) && tid !in w.reservations
    ensures EntriesKept(AfterStore(w, tid))
  {
  }

  lemma StoreKeepsThread(w: World, tid: Tid, x: Tid)
    requires InPhase(w, tid, Checked) && ThreadKept(w, tid) && x in w.threads && ThreadKept(w, x)
    ensures x in AfterStore(w, tid).threads && ThreadKept(AfterStore(w, tid), x)
  {
  }

  lemma StoreKeepsReservation(w: World, tid: Tid, o: Tid)
    requires InPhase(w, tid, Checked) && ThreadKept(w, tid)
    requires o in AfterStore(w, tid).reservations && (o in w.reservations ==> ReservationKept(w, o))
    ensures ReservationKept(AfterStore(w, tid), o)
  {
  }

  lemma CountKeepsKept(w: World, tid: Tid)
    requires Kept(w)
    ensures Kept(AfterCount(w, tid))
  {
    if InPhase(w, tid, Stored) {
      var w' := AfterCount(w, tid);
      assert ThreadKept(w, tid);
      CountKeepsEntries(w, tid);
      forall x | x in w'.threads ensures ThreadKept(w', x) {
        CountKeepsThread(w, tid, x);
      }
      forall o | o in w'.reservations ensures ReservationKept(w', o) {
        CountKeepsReservation(w, tid, o);
      }
      hide EntriesKept, ThreadKept, ReservationKept, AfterCount;
    }
  }

  lemma CountKeepsEntries(w: World, tid: Tid)
    requires EntriesKept(w)
    ensures EntriesKept(AfterCount(w, tid))
  {
    hide UpdatePending;
  }

  lemma CountKeepsThread(w: World, tid: Tid, x: Tid)
    requires InPhase(w, tid, Stored) && ThreadKept(w, tid) && x in w.threads && ThreadKept(w, x)
    ensures x in AfterCount(w, tid).threads && ThreadKept(AfterCount(w, tid), x)
  {
    hide UpdatePending;
  }

  lemma CountKeepsReservation(w: World, tid: Tid, o: Tid)
    requires InPhase(w, tid, Stored) && ThreadKept(w, tid) && o in w.reservations && ReservationKept(w, o)
    ensures o in AfterCount(w, tid).reservations && ReservationKept(AfterCount(w, tid), o)
  {
    hide UpdatePending;
  }

  lemma DeleteKeepsKept(w: World, tid: Tid)
    requires Kept(w)
    ensures Kept(AfterDelete(w, tid))
  {
    if InPhase(w, tid, Shaken) {
      var w' := AfterDelete(w, tid);
      assert ThreadKept(w, tid);
      DeleteKeepsEntries(w, tid);
      forall x | x in w'.threads ensures ThreadKept(w', x) {
        DeleteKeepsThread(w, tid, x);
      }
      forall o | o in w'.reservations ensures ReservationKept(w', o) {
        DeleteKeepsReservation(w, tid, o);
      }
      hide EntriesKept, ThreadKept, ReservationKept, AfterDelete;
    }
  }

  lemma DeleteKeepsEntries(w: World, tid: Tid)
    requires EntriesKept(w)
    ensures EntriesKept(AfterDelete(w, tid))
  {
  }

  lemma DeleteKeepsThread(w: World, tid: Tid, x: Tid)
    requires EntriesKept(w) && InPhase(w, tid, Shaken) && ThreadKept(w, tid)
    requires x in AfterDelete(w, tid).threads && ThreadKept(w, x)
    ensures ThreadKept(AfterDelete(w, tid), x)
  {
  }

  lemma DeleteKeepsReservation(w: World, tid: Tid, o: Tid)
    requires EntriesKept(w) && InPhase(w, tid, Shaken) && ThreadKept(w, tid)
    requires o in w.reservations && ReservationKept(w, o)
    ensures o in AfterDelete(w, tid).reservations && ReservationKept(AfterDelete(w, tid), o)
  {
  }

  lemma GiveBackKeepsKept(w: World, tid: Tid)
    requires Kept(w)
    ensures Kept(AfterGiveBack(w, tid))
  {
    if Deleting(w, tid) {
      var w' := AfterGiveBack(w, tid);
      assert ThreadKept(w, tid);
      GiveBackKeepsEntries(w, tid);
      forall x | x in w'.threads ensures ThreadKept(w', x) {
        GiveBackKeepsThread(w, tid, x);
      }
      forall o | o in w'.reservations ensures ReservationKept(w', o) {
        GiveBackKeepsReservation(w, tid, o);
      }
      hide EntriesKept, ThreadKept, ReservationKept, AfterGiveBack;
    }
  }

  lemma GiveBackKeepsEntries(w: World, tid: Tid)
    requires EntriesKept(w) && Deleting(w, tid) && ThreadKept(w, tid)
    ensures EntriesKept(AfterGiveBack(w, tid))
  {
    hide UpdatePending;
  }

  lemma GiveBackKeepsThread(w: World, tid: Tid, x: Tid)
    requires Deleting(w, tid) && ThreadKept(w, tid)
    requires x in AfterGiveBack(w, tid).threads && ThreadKept(w, x)
    ensures ThreadKept(AfterGiveBack(w, tid), x)
  {
    hide UpdatePending;
  }

  lemma GiveBackKeepsReservation(w: World, tid: Tid, o: Tid)
    requires Deleting(w, tid) && ThreadKept(w, tid) && o in w.reservations && ReservationKept(w, o)
    ensures o in AfterGiveBack(w, tid).reservations && ReservationKept(AfterGiveBack(w, tid), o)
  {
    hide UpdatePending;
  }

  lemma NextKeepsKept(cfg: Config, w: World, e: Event)
    requires Kept(w)
    ensures Kept(Next(cfg, w, e))
  {
    match e
    case Store(tid) => StoreKeepsKept(w, tid);
    case Count(tid) => CountKeepsKept(w, tid);
    case Delete(tid) => DeleteKeepsKept(w, tid);
    case GiveBack(tid) => GiveBackKeepsKept(w, tid);
    case _ => CallbackKeepsKept(cfg, w, e);
  }

  // ---- what the counters count ----

  /** What a step does to the pending counter of a direction... */
  function PendingChange(w: World, e: Event, d: Direction): int {
    if e.Count? && InPhase(w, e.tid, Stored) && e.tid in w.reservations && w.threads[e.tid].dir == d then 1
    else if e.GiveBack? && Deleting(w, e.tid) && w.threads[e.tid].phase.entry.dir == d then -1
    else 0
  }

  lemma PendingCountAfter(cfg: Config, w: World, e: Event, d: Direction)
    requires d != Unknown
    ensures PendingCount(Next(cfg, w, e).t.counts, d) == PendingCount(w.t.counts, d) + PendingChange(w, e, d)
  {
    hide AddPeer, RemovePeer;
    if e.Shake? && InPhase(w, e.tid, Shaking) {
      PendingCountsStay(cfg, w.t, w.threads[e.tid].peer, w.threads[e.tid].dir);
    } else if e.Lost? {
      PendingCountsStay(cfg, w.t, e.p, Unknown);
    }
  }

  /** ... is what it does to the reservations. */
  lemma BackingAfter(cfg: Config, w: World, e: Event, d: Direction)
    requires Kept(w)
    ensures var w' := Next(cfg, w, e);
            |Backing(w', d)| - |Early(w', d)| == |Backing(w, d)| - |Early(w, d)| + PendingChange(w, e, d)
  {
    var w' := Next(cfg, w, e);
    match e
    case Store(tid) =>
      if InPhase(w, tid, Checked) {
        assert ThreadKept(w, tid);
        StoreKeepsSets(w, tid, d);
      }
    case Count(tid) =>
      if InPhase(w, tid, Stored) {
        assert ThreadKept(w, tid);
        CountSets(w, tid, d);
      }
    case Delete(tid) => DeleteKeepsSets(w, tid, d);
    case GiveBack(tid) =>
      if Deleting(w, tid) {
        assert ThreadKept(w, tid);
        GiveBackSets(w, tid, d);
      }
    case _ =>
      CallbackKeepsKept(cfg, w, e);
      assert Backing(w', d) == Backing(w, d) && Early(w', d) == Early(w, d);
  }

  lemma StoreKeepsSets(w: World, tid: Tid, d: Direction)
    requires InPhase(w, tid, Checked) && tid !in w.reservations
    ensures Backing(AfterStore(w, tid), d) == Backing(w, d) && Early(AfterStore(w, tid), d) == Early(w, d)
  {
  }

  lemma DeleteKeepsSets(w: World, tid: Tid, d: Direction)
    requires EntriesKept(w)
    ensures Backing(AfterDelete(w, tid), d) == Backing(w, d) && Early(AfterDelete(w, tid), d) == Early(w, d)
  {
  }

  /** A reservation given back before it is counted is settled when it is. */
  lemma CountSets(w: World, tid: Tid, d: Direction)
    requires InPhase(w, tid, Stored) && ThreadKept(w, tid)
    ensures var w' := AfterCount(w, tid);
            var early := w.reservations[tid].stage == Returned;
            if w.threads[tid].dir != d then Backing(w', d) == Backing(w, d) && Early(w', d) == Early(w, d)
            else if early then
              tid in Early(w, d) && Backing(w', d) == Backing(w, d) && Early(w', d) == Early(w, d) - {tid}
            else tid !in Backing(w, d) && Backing(w', d) == Backing(w, d) + {tid} && Early(w', d) == Early(w, d)
  {
    hide UpdatePending;
  }

  lemma GiveBackSets(w: World, tid: Tid, d: Direction)
    requires Deleting(w, tid) && ThreadKept(w, tid)
    ensures var w' := AfterGiveBack(w, tid);
            var o := w.threads[tid].phase.entry.owner;
            if w.threads[tid].phase.entry.dir != d then Backing(w', d) == Backing(w, d) && Early(w', d) == Early(w, d)
            else if w.reservations[o].counted then
              o in Backing(w, d) && Backing(w', d) == Backing(w, d) - {o} && Early(w', d) == Early(w, d)
            else o !in Early(w, d) && Backing(w', d) == Backing(w, d) && Early(w', d) == Early(w, d) + {o}
  {
    hide UpdatePending;
  }

  lemma NextKeepsTable(cfg: Config, w: World, e: Event)
    requires TableTally(cfg, w.t)
    ensures TableTally(cfg, Next(cfg, w, e).t)
  {
    hide TableTally, AddPeer, RemovePeer;
    var t' := Next(cfg, w, e).t;
    if e.Shake? && InPhase(w, e.tid, Shaking) {
      AddPeerKeeps(cfg, w.t, w.threads[e.tid].peer, w.threads[e.tid].dir);
    } else if e.Lost? {
      RemovePeerKeeps(cfg, w.t, e.p);
    } else {
      SameTallies(cfg, w.t, t');
    }
  }

  lemma NextKeepsInv(cfg: Config, w: World, e: Event)
    requires Inv(cfg, w)
    ensures Inv(cfg, Next(cfg, w, e))
  {
    hide Next, Kept, TableTally, Backing, Early, PendingCount, PendingChange;
    NextKeepsKept(cfg, w, e);
    NextKeepsTable(cfg, w, e);
    PendingCountAfter(cfg, w, e, Inbound);
    PendingCountAfter(cfg, w, e, Outbound);
    BackingAfter(cfg, w, e, Inbound);
    BackingAfter(cfg, w, e, Outbound);
  }

  lemma StartKeeps(cfg: Config)
    ensures Inv(cfg, Start())
  {
    InitTallies(cfg);
    assert Backing(Start(), Inbound) == {} && Backing(Start(), Outbound) == {};
    assert Early(Start(), Inbound) == {} && Early(Start(), Outbound) == {};
  }

  ghost function EntriesIn(w: World, d: Direction): set<Peer> {
    set p | p in w.entries && w.entries[p].dir == d
  }

  /** Whenever no thread is between an entry and its counter, the pending counter counts the entries. */
  lemma CountedWhenQuiet(cfg: Config, w: World, d: Direction)
    requires Inv(cfg, w) && d != Unknown
    requires forall tid | tid in w.threads :: !w.threads[tid].phase.Stored? && !w.threads[tid].phase.Deleted?
    ensures PendingCount(w.t.counts, d) == |EntriesIn(w, d)|
  {
    forall o | o in w.reservations
      ensures ReservationKept(w, o) && w.reservations[o].counted && !w.reservations[o].stage.Taken?
    {}
    assert Early(w, d) == {};
    var owners := map p | p in w.entries :: w.entries[p].owner;
    var peers := map o | o in w.reservations :: w.reservations[o].peer;
    forall o | o in Backing(w, d) ensures exists p :: p in EntriesIn(w, d) && owners[p] == o {
      assert peers[o] in EntriesIn(w, d);
    }
    forall p | p in EntriesIn(w, d) ensures exists o :: o in Backing(w, d) && peers[o] == p {
      assert owners[p] in Backing(w, d);
    }
    ImageBound(EntriesIn(w, d), owners, Backing(w, d));
    ImageBound(Backing(w, d), peers, EntriesIn(w, d));
  }

  /** A set covered by the image of another is not larger. */
  lemma {:induction false} ImageBound<A, B>(from: set<A>, f: map<A, B>, to: set<B>)
    requires from <= f.Keys
    requires forall b | b in to :: exists a :: a in from && f[a] == b
    ensures |to| <= |from|
    decreases |from|
  {
    if from == {} {
      if b :| b in to { assert false; }
    } else {
      var a :| a in from;
      forall b | b in to - {f[a]} ensures exists x :: x in from - {a} && f[x] == b {
        var x :| x in from && f[x] == b;
        assert x in from - {a};
      }
      ImageBound(from - {a}, f, to - {f[a]});
      SubsetSize(to, (to - {f[a]}) + {f[a]});
    }
  }

  lemma {:induction false} RunKeepsInv(cfg: Config, w: World, es: seq<Event>)
    requires Inv(cfg, w)
    ensures Inv(cfg, Run(cfg, w, es))
    decreases |es|
  {
    hide Inv, Next;
    if es != [] {
      NextKeepsInv(cfg, w, es[0]);
      RunKeepsInv(cfg, Next(cfg, w, es[0]), es[1..]);
    }
  }

  // ---- who counts against the limit ----

  predicate Entering(th: Thread, d: Direction) {
    th.dir == d && (th.phase == Checked || th.phase == Stored || th.phase == Shaking)
  }

  /** Threads past the slot check that have not yet reached `AddPeer`. */
  ghost function Incoming(w: World, d: Direction): set<Tid> {
    set tid | tid in w.threads && Entering(w.threads[tid], d)
  }

  /** Those for which the pending counter keeps no slot. */
  ghost function Unreserved(w: World, d: Direction): set<Tid> {
    Incoming(w, d) - Backing(w, d)
  }

  /** How many more handshakes there may be than the pending counter tells. One whose entry was given
      back before it was counted is missing twice. */
  ghost function Shortfall(w: World, d: Direction): int {
    |Unreserved(w, d)| + |Early(w, d)|
  }

  lemma {:induction false} SubsetSize<B>(s: set<B>, t: set<B>)
    requires s <= t
    ensures |s| <= |t|
    decreases s
  {
    if s != {} {
      var b :| b in s;
      SubsetSize(s - {b}, t - {b});
    }
  }

  lemma IncomingBound(cfg: Config, w: World, d: Direction)
    requires Inv(cfg, w) && d != Unknown
    ensures |Incoming(w, d)| <= PendingCount(w.t.counts, d) + Shortfall(w, d)
  {
    hide Kept, TableTally, Incoming, Backing, Early, PendingCount;
    assert PendingTally(w, d);
    var covered := Incoming(w, d) - Unreserved(w, d);
    assert Incoming(w, d) == covered + Unreserved(w, d);
    SubsetSize(covered, Backing(w, d));
  }

  /** At most k handshakes are missing from the pending counter, and the active counter has grown by at
      most m since any thread in its slot check read it. */
  ghost predicate Exposed(w: World, d: Direction, k: nat, m: nat) {
    && Shortfall(w, d) <= k
    && (forall tid | Reading(w, tid) && w.threads[tid].dir == d ::
          ActiveCount(w.t.counts, d) - w.threads[tid].phase.active <= m)
  }

  /** Active connections and incoming handshakes of one direction, against a limit. */
  ghost predicate Within(w: World, d: Direction, limit: int) {
    |ActiveIn(w.t, d)| + |Incoming(w, d)| <= limit
  }

  // ---- the bound ----

  /** The end of the slot check is where handshakes come in. */
  lemma PassBound(cfg: Config, w: World, tid: Tid, d: Direction, k: nat, m: nat)
    requires Inv(cfg, w) && d != Unknown
    requires Reading(w, tid) && Passes(cfg, w, tid) && w.threads[tid].dir == d
    requires Exposed(w, d, k, m) && Exposed(AfterReadPending(cfg, w, tid), d, k, m)
    ensures Within(AfterReadPending(cfg, w, tid), d, Max(cfg, d) + k + m - 1)
  {
    var w' := AfterReadPending(cfg, w, tid);
    PassSets(cfg, w, tid);
    IncomingBound(cfg, w, d);
    ActiveIsCounted(cfg, w, d);
  }

  lemma ActiveIsCounted(cfg: Config, w: World, d: Direction)
    requires TableTally(cfg, w.t) && d != Unknown
    ensures ActiveCount(w.t.counts, d) == |ActiveIn(w.t, d)|
  {
  }

  lemma PassSets(cfg: Config, w: World, tid: Tid)
    requires Kept(w) && Reading(w, tid) && Passes(cfg, w, tid)
    ensures var d := w.threads[tid].dir;
            var w' := AfterReadPending(cfg, w, tid);
            && w'.t == w.t
            && |Incoming(w', d)| == |Incoming(w, d)| + 1
            && |Unreserved(w', d)| == |Unreserved(w, d)| + 1
            && Early(w', d) == Early(w, d) && Backing(w', d) == Backing(w, d)
  {
    hide EntriesKept, ReservationKept;
    var d := w.threads[tid].dir;
    var w' := AfterReadPending(cfg, w, tid);
    assert ThreadKept(w, tid);
    assert Incoming(w', d) == Incoming(w, d) + {tid};
    assert Unreserved(w', d) == Unreserved(w, d) + {tid};
  }

  lemma ShakeBound(cfg: Config, w: World, tid: Tid, save: bool, d: Direction, limit: int)
    requires Within(w, d, limit)
    ensures Within(AfterShake(cfg, w, tid, save), d, limit)
  {
    hide AddPeer, ActiveIn;
    var w' := AfterShake(cfg, w, tid, save);
    if InPhase(w, tid, Shaking) {
      var th := w.threads[tid];
      assert Incoming(w', d) == Incoming(w, d) - {tid};
      assert tid in Incoming(w, d) <==> th.dir == d;
      AddPeerSets(cfg, w.t, th.peer, th.dir, d);
    }
  }

  lemma LostBound(cfg: Config, w: World, p: Peer, d: Direction, limit: int)
    requires Within(w, d, limit)
    ensures Within(AfterLost(cfg, w, p), d, limit)
  {
    var w' := AfterLost(cfg, w, p);
    SubsetSize(ActiveIn(w'.t, d), ActiveIn(w.t, d));
    assert Incoming(w', d) == Incoming(w, d);
  }

  predicate LetsIn(cfg: Config, w: World, e: Event, d: Direction) {
    e.ReadPending? && Reading(w, e.tid) && Passes(cfg, w, e.tid) && w.threads[e.tid].dir == d
  }

  /** Any other step changes neither the active peers nor who is incoming. */
  lemma QuietStep(cfg: Config, w: World, e: Event, d: Direction)
    requires !LetsIn(cfg, w, e, d) && !e.Shake? && !e.Lost?
    ensures var w' := Next(cfg, w, e);
            Incoming(w', d) == Incoming(w, d) && w'.t.peers == w.t.peers
  {
    hide UpdatePending, ActiveCount, PendingCount;
  }

  lemma OtherBound(cfg: Config, w: World, e: Event, d: Direction, limit: int)
    requires Within(w, d, limit) && !LetsIn(cfg, w, e, d)
    ensures Within(Next(cfg, w, e), d, limit)
  {
    hide Incoming, AfterShake, AfterLost;
    match e
    case Shake(tid, save) => ShakeBound(cfg, w, tid, save, d, limit);
    case Lost(p) => LostBound(cfg, w, p, d, limit);
    case _ =>
      QuietStep(cfg, w, e, d);
      assert ActiveIn(Next(cfg, w, e).t, d) == ActiveIn(w.t, d);
  }

  /** The run stays exposed to no more than k missing and m unseen. */
  ghost predicate Throughout(cfg: Config, w: World, es: seq<Event>, d: Direction, k: nat, m: nat)
    decreases |es|
  {
    Exposed(w, d, k, m) && (es == [] || Throughout(cfg, Next(cfg, w, es[0]), es[1..], d, k, m))
  }

  lemma {:induction false} RunBound(cfg: Config, w: World, es: seq<Event>, d: Direction, k: nat, m: nat)
    requires Inv(cfg, w) && d != Unknown
    requires Within(w, d, Max(cfg, d) + k + m - 1)
    requires Throughout(cfg, w, es, d, k, m)
    ensures Inv(cfg, Run(cfg, w, es)) && Within(Run(cfg, w, es), d, Max(cfg, d) + k + m - 1)
    decreases |es|
  {
    hide Inv, Within, Exposed, AfterReadPending, Passes;
    if es != [] {
      var w' := Next(cfg, w, es[0]);
      NextKeepsInv(cfg, w, es[0]);
      assert Exposed(w', d, k, m);
      if LetsIn(cfg, w, es[0], d) {
        PassBound(cfg, w, es[0].tid, d, k, m);
      } else {
        OtherBound(cfg, w, es[0], d, Max(cfg, d) + k + m - 1);
      }
      RunBound(cfg, w', es[1..], d, k, m);
    }
  }

  lemma StartIsWithin(d: Direction)
    ensures |ActiveIn(Start().t, d)| == 0 && |Incoming(Start(), d)| == 0
  {
    assert ActiveIn(Start().t, d) == {} && Incoming(Start(), d) == {};
  }

  /** Slots under any interleaving, from the start. */
  lemma SlotsAnyInterleaving(cfg: Config, es: seq<Event>, d: Direction, k: nat, m: nat)
    requires d != Unknown && 1 <= k
    requires 0 <= if d == Inbound then cfg.maxInbound else cfg.maxOutbound
    requires Throughout(cfg, Start(), es, d, k, m)
    ensures var w := Run(cfg, Start(), es);
            var limit := if d == Inbound then cfg.maxInbound else cfg.maxOutbound;
            && |ActiveIn(w.t, d)| + |Incoming(w, d)| <= limit + k + m - 1
            && |ActiveIn(w.t, d)| <= limit + k + m - 1
  {
    StartKeeps(cfg);
    StartIsWithin(d);
    RunBound(cfg, Start(), es, d, k, m);
  }
}

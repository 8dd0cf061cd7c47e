/**
 Admission as one step: the callback from its test to the counted reservation without another thread
 in between (core/network/identity/identity.go:92-104). Handshakes, releases and disconnections
 interleave as before. No run then exceeds the limit.
 */
module AdmissionWhole {
  import opened ConnectionSpec
  import opened Admission

  datatype Move = Admit(tid: Tid, p: Peer, d: Direction) | One(e: Event)

  function Expand(m: Move): seq<Event> {
    match m
    case Admit(tid, p, d) => [Test(tid, p, d), ReadActive(tid), ReadPending(tid), Store(tid), Count(tid)]
    case One(e) => [e]
  }

  function ExpandAll(ms: seq<Move>): seq<Event>
    decreases |ms|
  {
    if ms == [] then [] else Expand(ms[0]) + ExpandAll(ms[1..])
  }

  /** Admission happens in one step only; everything else as before. */
  predicate WholeAdmissions(ms: seq<Move>) {
    forall m | m in ms :: m.One? ==> m.e.Shake? || m.e.Delete? || m.e.GiveBack? || m.e.Lost?
  }

  // ---- every thread owns the pending entry of its peer ----

  ghost predicate Own(w: World, tid: Tid)
    requires tid in w.threads
  {
    var th := w.threads[tid];
    match th.phase
    case Shaking => Stands(w, tid, th)
    case Shaken => Stands(w, tid, th)
    case Deleted(_) => true
    case _ => false
  }

  /** The entry of th's peer is stored by tid and counted. */
  ghost predicate Stands(w: World, tid: Tid, th: Thread) {
    && th.peer in w.entries && w.entries[th.peer] == Entry(th.dir, tid)
    && tid in w.reservations && w.reservations[tid].counted
  }

  ghost predicate OthersOwn(w: World, tid: Tid) {
    forall x | x in w.threads && x != tid :: Own(w, x)
  }

  ghost predicate AllOwn(w: World) {
    forall x | x in w.threads :: Own(w, x)
  }

  /** Whoever owns its entry is counted... */
  lemma OwnersAreBacked(w: World, x: Tid, d: Direction)
    requires EntriesKept(w) && x in w.threads && Own(w, x)
    ensures x !in Unreserved(w, d)
  {
  }

  lemma OwnersDoNotRead(w: World, x: Tid)
    requires x in w.threads && Own(w, x)
    ensures !Reading(w, x)
  {
  }

  lemma NothingEarly(w: World, tid: Tid, d: Direction)
    requires Kept(w) && OthersOwn(w, tid)
    requires tid in w.reservations && !w.reservations[tid].counted ==> w.reservations[tid].stage != Returned
    ensures Early(w, d) == {}
  {
    forall o | o in w.reservations ensures o !in Early(w, d) {
      assert ReservationKept(w, o);
      if o in w.threads && o != tid {
        assert Own(w, o);
      }
    }
  }

  /** ... so only tid can be missing from the pending counter. */
  lemma OthersExposed(w: World, tid: Tid, d: Direction)
    requires Kept(w) && OthersOwn(w, tid)
    requires tid in w.reservations && !w.reservations[tid].counted ==> w.reservations[tid].stage != Returned
    requires Reading(w, tid) ==> w.threads[tid].phase.active == ActiveCount(w.t.counts, w.threads[tid].dir)
    ensures Exposed(w, d, 1, 0)
  {
    NothingEarly(w, tid, d);
    forall x | x in Unreserved(w, d) ensures x == tid {
      if x != tid {
        OwnersAreBacked(w, x, d);
      }
    }
    SubsetSize(Unreserved(w, d), {tid});
    forall x | x in w.threads && x != tid ensures !Reading(w, x) {
      OwnersDoNotRead(w, x);
    }
  }

  // ---- an admission ----

  /** The thread has not stored anything yet, and may store its peer. */
  ghost predicate Entrant(w: World, tid: Tid, p: Peer) {
    && Kept(w) && OthersOwn(w, tid)
    && tid !in w.reservations && p !in w.entries
    && (tid in w.threads ==> w.threads[tid].peer == p)
    && (Reading(w, tid) ==> w.threads[tid].phase.active == ActiveCount(w.t.counts, w.threads[tid].dir))
  }

  lemma EntrantSteps(cfg: Config, w: World, tid: Tid, p: Peer, e: Event)
    requires Entrant(w, tid, p)
    requires e == ReadActive(tid) || e == ReadPending(tid) || (e.Test? && e.tid == tid && e.p == p)
    ensures Entrant(Next(cfg, w, e), tid, p)
  {
    hide ActiveCount, PendingCount, EntriesKept;
    CallbackKeepsKept(cfg, w, e);
    var w' := Next(cfg, w, e);
    forall x | x in w'.threads && x != tid ensures Own(w', x) {
      assert Own(w, x);
    }
  }

  lemma EntrantStores(w: World, tid: Tid, p: Peer)
    requires Entrant(w, tid, p)
    ensures var w' := AfterStore(w, tid);
            && Kept(w') && OthersOwn(w', tid)
            && if InPhase(w, tid, Checked) then
                 && InPhase(w', tid, Stored) && w'.threads[tid].peer == p
                 && p in w'.entries && w'.entries[p] == Entry(w'.threads[tid].dir, tid)
                 && tid in w'.reservations && w'.reservations[tid].stage == Held
               else w' == w
  {
    StoreKeepsKept(w, tid);
    var w' := AfterStore(w, tid);
    forall x | x in w'.threads && x != tid ensures Own(w', x) {
      assert Own(w, x);
    }
  }

  lemma StoredCounts(w: World, tid: Tid, p: Peer)
    requires Kept(w) && OthersOwn(w, tid) && InPhase(w, tid, Stored) && w.threads[tid].peer == p
    requires p in w.entries && w.entries[p] == Entry(w.threads[tid].dir, tid) && tid in w.reservations
    ensures AllOwn(AfterCount(w, tid))
  {
    hide UpdatePending;
    var w' := AfterCount(w, tid);
    forall x | x in w'.threads ensures Own(w', x) {
      assert x != tid ==> Own(w, x);
    }
  }

  lemma AdmitKeepsOwn(cfg: Config, w: World, tid: Tid, p: Peer, dir: Direction, d: Direction)
    requires Kept(w) && AllOwn(w)
    ensures var w1 := AfterTest(w, tid, p, dir);
            var w2 := AfterReadActive(w1, tid);
            var w3 := AfterReadPending(cfg, w2, tid);
            var w4 := AfterStore(w3, tid);
            && Exposed(w, d, 1, 0) && Exposed(w1, d, 1, 0) && Exposed(w2, d, 1, 0) && Exposed(w3, d, 1, 0)
            && Exposed(w4, d, 1, 0) && AllOwn(AfterCount(w4, tid))
  {
    if tid in w.threads || tid in w.reservations || p in w.entries {
      NotAdmitted(cfg, w, tid, p, dir);
      OthersExposed(w, tid, d);
    } else {
      EntrantExposed(cfg, w, tid, p, dir, d);
    }
  }

  lemma EntrantExposed(cfg: Config, w: World, tid: Tid, p: Peer, dir: Direction, d: Direction)
    requires Entrant(w, tid, p) && tid !in w.threads
    ensures var w1 := AfterTest(w, tid, p, dir);
            var w2 := AfterReadActive(w1, tid);
            var w3 := AfterReadPending(cfg, w2, tid);
            var w4 := AfterStore(w3, tid);
            && Exposed(w, d, 1, 0) && Exposed(w1, d, 1, 0) && Exposed(w2, d, 1, 0) && Exposed(w3, d, 1, 0)
            && Exposed(w4, d, 1, 0) && AllOwn(AfterCount(w4, tid))
  {
    hide Kept, OthersOwn, Own, AllOwn, Exposed, AfterStore, AfterCount, ActiveCount, PendingCount;
    var w1 := AfterTest(w, tid, p, dir);
    var w2 := AfterReadActive(w1, tid);
    var w3 := AfterReadPending(cfg, w2, tid);
    EntrantSteps(cfg, w, tid, p, Test(tid, p, dir));
    EntrantSteps(cfg, w1, tid, p, ReadActive(tid));
    assert tid in w2.threads ==> Reading(w2, tid);
    EntrantSteps(cfg, w2, tid, p, ReadPending(tid));
    hide AfterTest, AfterReadActive, AfterReadPending;
    EntrantIsExposed(w, tid, p, d);
    EntrantIsExposed(w1, tid, p, d);
    EntrantIsExposed(w2, tid, p, d);
    EntrantIsExposed(w3, tid, p, d);
    StoredIsExposed(w3, tid, p, d);
    Admitted(cfg, w2, w3, AfterStore(w3, tid), tid, p);
  }

  lemma EntrantIsExposed(w: World, tid: Tid, p: Peer, d: Direction)
    requires Entrant(w, tid, p)
    ensures Exposed(w, d, 1, 0)
  {
    OthersExposed(w, tid, d);
  }

  lemma StoredIsExposed(w: World, tid: Tid, p: Peer, d: Direction)
    requires Entrant(w, tid, p)
    ensures Exposed(AfterStore(w, tid), d, 1, 0)
  {
    hide Exposed, AfterStore, Kept, OthersOwn, ActiveCount;
    EntrantStores(w, tid, p);
    OthersExposed(AfterStore(w, tid), tid, d);
  }

  lemma NotAdmitted(cfg: Config, w: World, tid: Tid, p: Peer, dir: Direction)
    requires Kept(w) && AllOwn(w)
    requires tid in w.threads || tid in w.reservations || p in w.entries
    ensures AfterTest(w, tid, p, dir) == w && AfterReadActive(w, tid) == w && AfterReadPending(cfg, w, tid) == w
    ensures AfterStore(w, tid) == w && AfterCount(w, tid) == w
    ensures tid in w.reservations && !w.reservations[tid].counted ==> w.reservations[tid].stage != Returned
    ensures !Reading(w, tid)
  {
    hide EntriesKept, ThreadKept;
    assert tid in w.threads ==> Own(w, tid);
    assert tid in w.reservations ==> ReservationKept(w, tid);
  }

  /** The thread has stored its entry, or is turned away. */
  lemma Admitted(cfg: Config, w2: World, w3: World, w4: World, tid: Tid, p: Peer)
    requires w3 == AfterReadPending(cfg, w2, tid) && w4 == AfterStore(w3, tid)
    requires Entrant(w3, tid, p) && (tid in w2.threads ==> Reading(w2, tid))
    ensures AllOwn(AfterCount(w4, tid))
  {
    EntrantStores(w3, tid, p);
    if InPhase(w3, tid, Checked) {
      StoredCounts(w4, tid, p);
    }
  }

  // ---- runs ----

  lemma OneKeepsOwn(cfg: Config, w: World, e: Event)
    requires Kept(w) && AllOwn(w) && (e.Shake? || e.Delete? || e.GiveBack? || e.Lost?)
    ensures AllOwn(Next(cfg, w, e))
  {
    var w' := Next(cfg, w, e);
    forall x | x in w'.threads ensures Own(w', x) {
      OneKeepsThatOwn(cfg, w, e, x);
    }
  }

  lemma ShakeKeepsOwn(cfg: Config, w: World, tid: Tid, save: bool, x: Tid)
    requires x in w.threads && Own(w, x)
    ensures x in AfterShake(cfg, w, tid, save).threads && Own(AfterShake(cfg, w, tid, save), x)
  {
    hide AddPeer;
  }

  lemma DeleteKeepsOwn(w: World, tid: Tid, x: Tid)
    requires x in AfterDelete(w, tid).threads && Own(w, x) && ThreadKept(w, x)
    requires tid in w.threads ==> Own(w, tid) && ThreadKept(w, tid)
    ensures Own(AfterDelete(w, tid), x)
  {
  }

  lemma GiveBackKeepsOwn(w: World, tid: Tid, x: Tid)
    requires x in AfterGiveBack(w, tid).threads && Own(w, x) && ThreadKept(w, x)
    requires tid in w.threads ==> Own(w, tid) && ThreadKept(w, tid)
    ensures Own(AfterGiveBack(w, tid), x)
  {
    hide UpdatePending;
  }

  lemma OneKeepsThatOwn(cfg: Config, w: World, e: Event, x: Tid)
    requires Kept(w) && AllOwn(w) && (e.Shake? || e.Delete? || e.GiveBack? || e.Lost?) && x in Next(cfg, w, e).threads
    ensures Own(Next(cfg, w, e), x)
  {
    assert x in w.threads by { hide AddPeer, RemovePeer, UpdatePending; }
    assert Own(w, x) && ThreadKept(w, x);
    assert !e.Lost? && e.tid in w.threads ==> Own(w, e.tid) && ThreadKept(w, e.tid);
    hide Kept, AllOwn, ThreadKept, AfterShake, AfterDelete, AfterGiveBack, RemovePeer;
    match e
    case Shake(tid, save) => ShakeKeepsOwn(cfg, w, tid, save, x);
    case Delete(tid) => DeleteKeepsOwn(w, tid, x);
    case GiveBack(tid) => GiveBackKeepsOwn(w, tid, x);
    case Lost(_) =>
  }

  lemma AllOwnIsExposed(w: World, d: Direction)
    requires Kept(w) && AllOwn(w)
    ensures Exposed(w, d, 1, 0)
  {
    forall o | o in w.reservations ensures o !in Early(w, d) {
      assert ReservationKept(w, o);
      assert o in w.threads ==> Own(w, o);
    }
    assert Early(w, d) == {};
    forall x | x in w.threads ensures x !in Unreserved(w, d) {
      OwnersAreBacked(w, x, d);
    }
    assert Unreserved(w, d) == {};
    forall x | x in w.threads ensures !Reading(w, x) {
      OwnersDoNotRead(w, x);
    }
  }

  lemma {:induction false} WholeAdmissionsExposed(cfg: Config, w: World, ms: seq<Move>, d: Direction)
    requires Kept(w) && AllOwn(w) && WholeAdmissions(ms)
    ensures Throughout(cfg, w, ExpandAll(ms), d, 1, 0)
    decreases |ms|
  {
    hide Kept, AllOwn, Exposed, AfterTest, AfterReadActive, AfterReadPending, AfterStore, AfterCount, Next;
    AllOwnIsExposed(w, d);
    if ms != [] {
      var rest := ExpandAll(ms[1..]);
      assert ms[0] in ms;
      match ms[0]
      case Admit(tid, p, dir) =>
        AdmitKeepsOwn(cfg, w, tid, p, dir, d);
        AdmitKeepsKept(cfg, w, tid, p, dir);
        WholeAdmissionsExposed(cfg, Admitting(cfg, w, tid, p, dir), ms[1..], d);
        var es := ExpandAll(ms);
        assert es == Expand(ms[0]) + rest && es[5..] == rest && es[0..] == es;
        FiveMore(cfg, w, tid, p, dir, es, d);
      case One(e) =>
        NextKeepsKept(cfg, w, e);
        OneKeepsOwn(cfg, w, e);
        WholeAdmissionsExposed(cfg, Next(cfg, w, e), ms[1..], d);
        assert ExpandAll(ms) == [e] + rest && ExpandAll(ms)[1..] == rest;
        OneMore(cfg, w, ExpandAll(ms), 0, d);
        assert ExpandAll(ms)[0..] == ExpandAll(ms);
    }
  }

  /** The world after an admission. */
  function Admitting(cfg: Config, w: World, tid: Tid, p: Peer, d: Direction): World {
    AfterCount(AfterStore(AfterReadPending(cfg, AfterReadActive(AfterTest(w, tid, p, d), tid), tid), tid), tid)
  }

  lemma AdmitKeepsKept(cfg: Config, w: World, tid: Tid, p: Peer, d: Direction)
    requires Kept(w)
    ensures Kept(Admitting(cfg, w, tid, p, d))
  {
    hide Kept, AfterTest, AfterReadActive, AfterReadPending, AfterStore, AfterCount;
    var w1 := AfterTest(w, tid, p, d);
    var w2 := AfterReadActive(w1, tid);
    var w3 := AfterReadPending(cfg, w2, tid);
    NextKeepsKept(cfg, w, Test(tid, p, d));
    NextKeepsKept(cfg, w1, ReadActive(tid));
    NextKeepsKept(cfg, w2, ReadPending(tid));
    NextKeepsKept(cfg, w3, Store(tid));
    NextKeepsKept(cfg, AfterStore(w3, tid), Count(tid));
  }

  lemma OneMore(cfg: Config, w: World, es: seq<Event>, i: nat, d: Direction)
    requires i < |es| && Exposed(w, d, 1, 0) && Throughout(cfg, Next(cfg, w, es[i]), es[i + 1..], d, 1, 0)
    ensures Throughout(cfg, w, es[i..], d, 1, 0)
  {
    hide Exposed, Next;
    assert es[i..][1..] == es[i + 1..];
  }

  lemma FiveMore(cfg: Config, w: World, tid: Tid, p: Peer, dir: Direction, es: seq<Event>, d: Direction)
    requires Kept(w) && AllOwn(w)
    requires |es| >= 5 && es[0] == Test(tid, p, dir) && es[1] == ReadActive(tid) && es[2] == ReadPending(tid)
    requires es[3] == Store(tid) && es[4] == Count(tid)
    requires Throughout(cfg, Admitting(cfg, w, tid, p, dir), es[5..], d, 1, 0)
    ensures Throughout(cfg, w, es[0..], d, 1, 0)
  {
    hide Kept, AllOwn, Exposed, Throughout, AfterTest, AfterReadActive, AfterReadPending, AfterStore, AfterCount;
    AdmitKeepsOwn(cfg, w, tid, p, dir, d);
    var w1 := AfterTest(w, tid, p, dir);
    var w2 := AfterReadActive(w1, tid);
    var w3 := AfterReadPending(cfg, w2, tid);
    var w4 := AfterStore(w3, tid);
    assert Next(cfg, w, es[0]) == w1 && Next(cfg, w1, es[1]) == w2 && Next(cfg, w2, es[2]) == w3;
    assert Next(cfg, w3, es[3]) == w4 && Next(cfg, w4, es[4]) == Admitting(cfg, w, tid, p, dir);
    hide Next, Admitting;
    OneMore(cfg, w4, es, 4, d);
    OneMore(cfg, w3, es, 3, d);
    OneMore(cfg, w2, es, 2, d);
    OneMore(cfg, w1, es, 1, d);
    OneMore(cfg, w, es, 0, d);
  }

  /** Slot safety: with admission as one step no run exceeds the limit. */
  lemma SlotsWithWholeAdmission(cfg: Config, ms: seq<Move>)
    requires WholeAdmissions(ms)
    ensures var w := Admission.Run(cfg, Start(), ExpandAll(ms));
            && (0 <= cfg.maxInbound ==>
                  |ActiveIn(w.t, Inbound)| <= |ActiveIn(w.t, Inbound)| + |Incoming(w, Inbound)| <= cfg.maxInbound)
            && (0 <= cfg.maxOutbound ==>
                  |ActiveIn(w.t, Outbound)| <= |ActiveIn(w.t, Outbound)| + |Incoming(w, Outbound)| <= cfg.maxOutbound)
  {
    StartKeeps(cfg);
    hide Throughout, Admission.Run;
    if 0 <= cfg.maxInbound {
      WholeAdmissionsExposed(cfg, Start(), ms, Inbound);
      SlotsAnyInterleaving(cfg, ExpandAll(ms), Inbound, 1, 0);
    }
    if 0 <= cfg.maxOutbound {
      WholeAdmissionsExposed(cfg, Start(), ms, Outbound);
      SlotsAnyInterleaving(cfg, ExpandAll(ms), Outbound, 1, 0);
    }
  }

  // ---- what an admission does ----

  /** Pending entries as the program has them. */
  function NetOf(w: World): Net {
    Net(w.t, map p | p in w.entries :: w.entries[p].dir)
  }

  lemma RunOfAdmit(cfg: Config, w: World, tid: Tid, p: Peer, d: Direction)
    ensures Admission.Run(cfg, w, Expand(Admit(tid, p, d))) == Admitting(cfg, w, tid, p, d)
  {
    hide AfterTest, AfterReadActive, AfterReadPending, AfterStore, AfterCount;
    var es := Expand(Admit(tid, p, d));
    var w1 := AfterTest(w, tid, p, d);
    var w2 := AfterReadActive(w1, tid);
    var w3 := AfterReadPending(cfg, w2, tid);
    RunFrom(cfg, w, es, 0);
    RunFrom(cfg, w1, es, 1);
    RunFrom(cfg, w2, es, 2);
    RunFrom(cfg, w3, es, 3);
    RunFrom(cfg, AfterStore(w3, tid), es, 4);
    assert es[0..] == es && es[5..] == [];
  }

  /** What the callback does when nothing comes between its parts: the pending peer is ignored, the one
      without a slot turned away, any other reserved. */
  lemma AdmitIsConnected(cfg: Config, w: World, tid: Tid, p: Peer, d: Direction)
    requires tid !in w.threads && tid !in w.reservations
    ensures var w' := Admission.Run(cfg, w, Expand(Admit(tid, p, d)));
            var started := p !in w.entries && HasFreeSlot(cfg, w.t.counts, d);
            && NetOf(w') == (if started then AddPending(NetOf(w), p, d) else NetOf(w))
            && w'.threads == (if started then w.threads[tid := Thread(p, d, Shaking)] else w.threads)
  {
    RunOfAdmit(cfg, w, tid, p, d);
    hide Admission.Run, Admitting;
    if p !in w.entries && HasFreeSlot(cfg, w.t.counts, d) {
      Reserved(cfg, w, tid, p, d);
    } else {
      Ignored(cfg, w, tid, p, d);
    }
  }

  lemma PassesAlone(cfg: Config, w: World, tid: Tid, p: Peer, d: Direction)
    requires tid !in w.threads && tid !in w.reservations && p !in w.entries && HasFreeSlot(cfg, w.t.counts, d)
    ensures AfterReadPending(cfg, AfterReadActive(AfterTest(w, tid, p, d), tid), tid)
         == w.(threads := w.threads[tid := Thread(p, d, Checked)])
  {
    hide ActiveCount, PendingCount;
  }

  lemma Reserved(cfg: Config, w: World, tid: Tid, p: Peer, d: Direction)
    requires tid !in w.threads && tid !in w.reservations && p !in w.entries && HasFreeSlot(cfg, w.t.counts, d)
    ensures var w' := Admitting(cfg, w, tid, p, d);
            && NetOf(w') == AddPending(NetOf(w), p, d)
            && w'.threads == w.threads[tid := Thread(p, d, Shaking)]
  {
    var w3 := AfterReadPending(cfg, AfterReadActive(AfterTest(w, tid, p, d), tid), tid);
    PassesAlone(cfg, w, tid, p, d);
    hide AfterTest, AfterReadActive, AfterReadPending, HasFreeSlot;
    var w' := AfterCount(AfterStore(w3, tid), tid);
    assert w'.threads == w.threads[tid := Thread(p, d, Shaking)];
    assert NetOf(w').pending == NetOf(w).pending[p := d];
  }

  lemma Ignored(cfg: Config, w: World, tid: Tid, p: Peer, d: Direction)
    requires tid !in w.threads && tid !in w.reservations && (p in w.entries || !HasFreeSlot(cfg, w.t.counts, d))
    ensures Admitting(cfg, w, tid, p, d) == w
  {
    var w2 := AfterReadActive(AfterTest(w, tid, p, d), tid);
    if p !in w.entries && d != Unknown {
      assert w2.threads == w.threads[tid := Thread(p, d, Read(ActiveCount(w.t.counts, d)))];
      assert w2.threads - {tid} == w.threads;
    } else {
      assert w2.threads == w.threads;
    }
    assert AfterReadPending(cfg, w2, tid) == w;
  }

  /** The handshake goroutine when nothing comes between its parts: the peer is added just if it is to
      be saved, then its pending entry is released, whichever direction that has. */
  lemma HandshakeIsStep(cfg: Config, w: World, tid: Tid, save: bool)
    requires InPhase(w, tid, Shaking)
    ensures var w' := Admission.Run(cfg, w, [Shake(tid, save), Delete(tid), GiveBack(tid)]);
            var n, th := NetOf(w), w.threads[tid];
            && NetOf(w') == RemovePending(if save then n.(t := AddPeer(cfg, n.t, th.peer, th.dir)) else n, th.peer)
            && w'.threads == w.threads - {tid}
  {
    RunOfThree(cfg, w, [Shake(tid, save), Delete(tid), GiveBack(tid)]);
    hide AddPeer, RemovePending, AfterDelete, AfterGiveBack, Admission.Run;
    var w1 := AfterShake(cfg, w, tid, save);
    ReleaseIsStep(w1, tid);
    assert NetOf(w1).pending == NetOf(w).pending;
    assert w1.threads - {tid} == w.threads - {tid};
  }

  lemma ReleaseIsStep(w: World, tid: Tid)
    requires InPhase(w, tid, Shaken)
    ensures var w' := AfterGiveBack(AfterDelete(w, tid), tid);
            NetOf(w') == RemovePending(NetOf(w), w.threads[tid].peer) && w'.threads == w.threads - {tid}
  {
    hide UpdatePending;
    var n, p := NetOf(w), w.threads[tid].peer;
    var w1 := AfterDelete(w, tid);
    var w' := AfterGiveBack(w1, tid);
    if p in w.entries {
      assert w'.entries == w.entries - {p};
      assert NetOf(w').pending == n.pending - {p};
    } else {
      assert w' == w1;
    }
  }

  /** A lost peer is removed from the table. */
  lemma LostIsStep(cfg: Config, w: World, p: Peer)
    ensures var w' := Next(cfg, w, Lost(p));
            NetOf(w') == ConnectionSpec.Step(cfg, NetOf(w), Disconnect(p)) && w'.threads == w.threads
  {
    hide RemovePeer;
  }

  /** Between `AddPeer` and the release a peer counts twice: active and pending together pass the
      limit although admission is one step. */
  lemma CountedTwice(cfg: Config, w: World, tid: Tid, p: Peer, d: Direction)
    requires tid !in w.threads && tid !in w.reservations && p !in w.entries && !Active(w.t, p, d)
    requires d != Unknown && ActiveCount(w.t.counts, d) + PendingCount(w.t.counts, d) == Max(cfg, d) - 1
    ensures var c := Admission.Run(cfg, w, ExpandAll([Admit(tid, p, d), One(Shake(tid, true))])).t.counts;
            ActiveCount(c, d) + PendingCount(c, d) == Max(cfg, d) + 1
  {
    var ms := [Admit(tid, p, d), One(Shake(tid, true))];
    assert ExpandAll(ms) == Expand(ms[0]) + [Shake(tid, true)] by {
      assert ms[1..] == [One(Shake(tid, true))] && ms[1..][1..] == [];
      assert ExpandAll(ms[1..]) == [Shake(tid, true)];
    }
    AdmitIsConnected(cfg, w, tid, p, d);
    RunSum(cfg, w, Expand(ms[0]), [Shake(tid, true)]);
    hide Expand, ExpandAll, NetOf;
    var w1 := Admission.Run(cfg, w, Expand(ms[0]));
    assert w1.t == AddPending(NetOf(w), p, d).t by { assert NetOf(w1).t == w1.t; }
    RunFrom(cfg, w1, [Shake(tid, true)], 0);
    PendingCountsStay(cfg, w1.t, p, d);
  }
}

/**
 What becomes of a relay node that is in the map but not in the array, additions that do not overlap, and
 runs in which overlapping additions lose a node or list one twice
 (core/relay/relay_client.go:139-184, 273-289).
 */
module RelayLost {
  import opened RelaySpec
  import opened RelayRuns
  import opened RelayOverlap

  lemma {:induction false} RunSum(host: Peer, w: World, a: seq<Op>, b: seq<Op>)
    ensures Run(host, w, a + b) == Run(host, Run(host, w, a), b)
    decreases |a|
  {
    hide Step;
    if a == [] {
      assert a + b == b;
    } else {
      assert (a + b)[1..] == a[1..] + b;
      RunSum(host, Step(host, w, a[0]), a[1..], b);
    }
  }

  // ---- a node that got lost ----

  ghost predicate HasOrAdds(w: World, a: Adder, id: Peer) {
    id in Ids(View(w.blocks, a.held)) || (a.Tested? && a.node.id == id)
  }

  /** In the map, but neither in the array nor in the hands of an adder that can bring it there. */
  ghost predicate Lost(w: World, id: Peer) {
    && id in w.nodes && id !in Ids(View(w.blocks, w.arr))
    && forall tid | tid in w.adders :: !HasOrAdds(w, w.adders[tid], id)
  }

  lemma AppendIds(first: seq<AddrInfo>, w: World, tid: Tid, room: nat, s: Slice)
    requires CanAppend(w, tid) && SliceKept(first, w.blocks, s)
    ensures Ids(View(AfterAppend(w, tid, room).blocks, s)) <= Ids(View(w.blocks, s)) + {w.adders[tid].node.id}
  {
    AppendView(first, w, tid, room, s);
    var v, h, n := View(w.blocks, s), w.adders[tid].held, w.adders[tid].node;
    if Shares(w, h, s) {
      assert forall x | x in v[h.len := n] :: x in v || x == n;
    }
  }

  lemma AppendKeepsLost(host: Peer, first: seq<AddrInfo>, w: World, tid: Tid, room: nat, id: Peer)
    requires Memory(host, first, w) && Lost(w, id) && CanAppend(w, tid)
    ensures Lost(AfterAppend(w, tid, room), id)
  {
    var w' := AfterAppend(w, tid, room);
    AppendFrame(w, tid, room);
    AppendedView(w, tid, room);
    AppendIds(first, w, tid, room, w.arr);
    assert !HasOrAdds(w, w.adders[tid], id);
    IdsOfSum(View(w.blocks, w.adders[tid].held), w.adders[tid].node);
    hide AfterAppend, View, Ids, CanAppend;
    forall t | t in w'.adders ensures !HasOrAdds(w', w'.adders[t], id) {
      assert AdderKept(host, first, w.blocks, w.adders[t]) && !HasOrAdds(w, w.adders[t], id);
      if t != tid {
        AppendIdsOf(host, first, w, tid, room, t);
      }
    }
  }

  lemma AppendIdsOf(host: Peer, first: seq<AddrInfo>, w: World, tid: Tid, room: nat, t: Tid)
    requires CanAppend(w, tid) && t in w.adders && AdderKept(host, first, w.blocks, w.adders[t])
    ensures Ids(View(AfterAppend(w, tid, room).blocks, w.adders[t].held))
         <= Ids(View(w.blocks, w.adders[t].held)) + {w.adders[tid].node.id}
  {
    AppendIds(first, w, tid, room, w.adders[t].held);
  }

  lemma StepKeepsLost(host: Peer, first: seq<AddrInfo>, w: World, op: Op, id: Peer)
    requires Memory(host, first, w) && Lost(w, id)
    ensures Lost(Step(host, w, op), id)
  {
    hide Memory, Unconnected, AddRelayPeer, View, Ids;
    if op.Append? {
      if CanAppend(w, op.tid) { AppendKeepsLost(host, first, w, op.tid, op.room, id); }
    } else {
      var w' := Step(host, w, op);
      assert w'.blocks == w.blocks;
      forall t | t in w'.adders ensures !HasOrAdds(w', w'.adders[t], id) {
        assert t in w.adders ==> !HasOrAdds(w, w.adders[t], id);
      }
    }
  }

  lemma {:induction false} LostStays(host: Peer, first: seq<AddrInfo>, w: World, ops: seq<Op>, id: Peer)
    requires Inv(host, first, w) && Lost(w, id)
    ensures Inv(host, first, Run(host, w, ops)) && Lost(Run(host, w, ops), id)
    decreases |ops|
  {
    hide Memory, Connections, Lost, Step;
    if ops != [] {
      StepKeeps(host, first, w, ops[0]);
      StepKeepsLost(host, first, w, ops[0], id);
      LostStays(host, first, Step(host, w, ops[0]), ops[1..], id);
    }
  }

  /** So it is never picked again. */
  lemma LostIsNeverPicked(host: Peer, first: seq<AddrInfo>, w: World, ops: seq<Op>, choice: nat, id: Peer)
    requires Inv(host, first, w) && Lost(w, id)
    ensures var w' := Run(host, w, ops);
            w'.loop.Checked? && AfterPick(w', choice).loop.Reserving? ==> AfterPick(w', choice).loop.node.id != id
  {
    LostStays(host, first, w, ops, id);
    var w' := Run(host, w, ops);
    hide Run;
    if w'.loop.Checked? {
      PickIsKnown(host, first, w', choice);
    }
  }

  // ---- an adder that finishes ----

  /** The steps that take an adder from wherever it is to its publication. */
  function Finish(host: Peer, tid: Tid): seq<Op> {
    [Look(tid, Parsed(AddrInfo(host, ""))), Test(tid)] + ([Append(tid, 0), Enter(tid)] + [Publish(tid)])
  }

  function Progress(a: Adder): nat {
    match a
    case Holding(_) => 0
    case Looked(_, _) => 1
    case Tested(_, _) => 2
    case Appended(_, _) => 3
    case Done(_) => 4
  }

  function Reaches(op: Op): nat {
    if op.Look? then 1 else if op.Test? then 2 else if op.Append? then 3 else 4
  }

  lemma FinishMoves(host: Peer, w: World, tid: Tid, id: Peer, op: Op)
    requires tid in w.adders && HasOrAdds(w, w.adders[tid], id)
    requires op == Look(tid, Parsed(AddrInfo(host, ""))) || op == Test(tid) || op == Enter(tid)
    requires Progress(w.adders[tid]) >= Reaches(op) - 1
    ensures var w' := Step(host, w, op);
            && tid in w'.adders && HasOrAdds(w', w'.adders[tid], id)
            && Progress(w'.adders[tid]) >= Reaches(op)
  {
    hide View, Ids;
  }

  lemma FinishAppends(host: Peer, first: seq<AddrInfo>, w: World, tid: Tid, id: Peer)
    requires tid in w.adders && HasOrAdds(w, w.adders[tid], id) && AdderKept(host, first, w.blocks, w.adders[tid])
    requires Progress(w.adders[tid]) >= 2
    ensures var w' := AfterAppend(w, tid, 0);
            && tid in w'.adders && HasOrAdds(w', w'.adders[tid], id)
            && Progress(w'.adders[tid]) >= 3
  {
    if CanAppend(w, tid) {
      AppendedView(w, tid, 0);
      IdsOfSum(View(w.blocks, w.adders[tid].held), w.adders[tid].node);
      AppendFrame(w, tid, 0);
      hide AfterAppend, View, Ids;
    }
  }

  lemma FinishKeeps(host: Peer, first: seq<AddrInfo>, w: World, tid: Tid, id: Peer, op: Op)
    requires Inv(host, first, w) && tid in w.adders && HasOrAdds(w, w.adders[tid], id)
    requires op == Look(tid, Parsed(AddrInfo(host, ""))) || op == Test(tid) || op == Append(tid, 0) || op == Enter(tid)
    requires Progress(w.adders[tid]) >= Reaches(op) - 1
    ensures var w' := Step(host, w, op);
            && Inv(host, first, w') && tid in w'.adders && HasOrAdds(w', w'.adders[tid], id)
            && Progress(w'.adders[tid]) >= Reaches(op)
  {
    assert AdderKept(host, first, w.blocks, w.adders[tid]);
    hide Inv, HasOrAdds, AdderKept, AfterAppend;
    StepKeeps(host, first, w, op);
    if op.Append? {
      FinishAppends(host, first, w, tid, id);
    } else {
      FinishMoves(host, w, tid, id, op);
    }
    hide Progress;
  }

  lemma FinishPublishes(host: Peer, first: seq<AddrInfo>, w: World, tid: Tid, id: Peer)
    requires Inv(host, first, w) && tid in w.adders && HasOrAdds(w, w.adders[tid], id)
    ensures id in Ids(Now(Run(host, w, Finish(host, tid))).arr)
  {
    hide Inv, Step, Run, HasOrAdds;
    var look := Look(tid, Parsed(AddrInfo(host, "")));
    var w1 := Step(host, w, look);
    var w2 := Step(host, w1, Test(tid));
    var w3 := Step(host, w2, Append(tid, 0));
    var w4 := Step(host, w3, Enter(tid));
    FinishKeeps(host, first, w, tid, id, look);
    FinishKeeps(host, first, w1, tid, id, Test(tid));
    FinishKeeps(host, first, w2, tid, id, Append(tid, 0));
    FinishKeeps(host, first, w3, tid, id, Enter(tid));
    RunOfTwo(host, w, look, Test(tid));
    RunOfTwo(host, w2, Append(tid, 0), Enter(tid));
    RunOfOne(host, w4, Publish(tid));
    RunSum(host, w2, [Append(tid, 0), Enter(tid)], [Publish(tid)]);
    RunSum(host, w, [look, Test(tid)], [Append(tid, 0), Enter(tid)] + [Publish(tid)]);
    PublishShows(host, w4, tid, id);
  }

  lemma PublishShows(host: Peer, w: World, tid: Tid, id: Peer)
    requires tid in w.adders && w.adders[tid].Done? && HasOrAdds(w, w.adders[tid], id)
    ensures id in Ids(Now(Step(host, w, Publish(tid))).arr)
  {
  }

  /** A node of the map is lost exactly when no run brings it into the array any more. */
  lemma LostForGoodIff(host: Peer, first: seq<AddrInfo>, w: World, id: Peer)
    requires Inv(host, first, w) && id in w.nodes
    ensures Lost(w, id) <==> forall ops: seq<Op> :: id !in Ids(Now(Run(host, w, ops)).arr)
  {
    hide Inv, Ids, View;
    if Lost(w, id) {
      forall ops: seq<Op> ensures id !in Ids(Now(Run(host, w, ops)).arr) {
        LostStays(host, first, w, ops, id);
      }
    } else if id in Ids(View(w.blocks, w.arr)) {
      assert Run(host, w, []) == w;
      assert id in Ids(Now(Run(host, w, [])).arr);
    } else {
      var tid :| tid in w.adders && HasOrAdds(w, w.adders[tid], id);
      FinishPublishes(host, first, w, tid, id);
    }
  }

  // ---- an addition on its own ----

  function Looks(tid: Tid, raw: Raw): seq<Op> {
    [Take(tid), Look(tid, raw), Test(tid)]
  }

  function Writes(tid: Tid, room: nat): seq<Op> {
    [Append(tid, room), Enter(tid)]
  }

  /** All the steps of one addition. */
  function Addition(tid: Tid, raw: Raw, room: nat): seq<Op> {
    Looks(tid, raw) + (Writes(tid, room) + [Publish(tid)])
  }

  predicate New(host: Peer, w: World, n: AddrInfo) {
    n.id != host && n.id !in w.relayPeers && n.id !in w.nodes
  }

  lemma LooksAre(host: Peer, w: World, tid: Tid, raw: Raw)
    requires tid !in w.adders
    ensures Run(host, w, Looks(tid, raw)) ==
            if raw.Unparsable? then w
            else With(w, tid, if New(host, w, raw.info) then Tested(w.arr, raw.info) else Done(w.arr))
  {
    RunOfThree(host, w, Take(tid), Look(tid, raw), Test(tid));
    hide Run;
    var w1 := With(w, tid, Holding(w.arr));
    if raw.Unparsable? {
      assert w1.adders - {tid} == w.adders;
    } else {
      LooksNew(host, w, tid, raw.info);
    }
  }

  lemma LooksNew(host: Peer, w: World, tid: Tid, n: AddrInfo)
    requires tid !in w.adders
    ensures AfterTest(AfterLook(host, AfterTake(w, tid), tid, Parsed(n)), tid)
         == With(w, tid, if New(host, w, n) then Tested(w.arr, n) else Done(w.arr))
  {
    var w2 := AfterLook(host, AfterTake(w, tid), tid, Parsed(n));
    assert w2 == With(w, tid, if n.id == host || n.id in w.relayPeers then Done(w.arr) else Looked(w.arr, n)) by {
      assert w.adders[tid := Holding(w.arr)][tid := w2.adders[tid]] == w.adders[tid := w2.adders[tid]];
    }
    assert w.adders[tid := w2.adders[tid]][tid := AfterTest(w2, tid).adders[tid]]
        == w.adders[tid := AfterTest(w2, tid).adders[tid]];
  }

  lemma WritesAre(host: Peer, w: World, tid: Tid, room: nat)
    requires CanAppend(w, tid)
    ensures var a := w.adders[tid];
            var (blocks, s) := AppendTo(w.blocks, a.held, a.node, room);
            Run(host, w, Writes(tid, room))
            == With(w, tid, Done(s)).(blocks := blocks, nodes := w.nodes[a.node.id := a.node])
  {
    hide AppendTo;
    RunOfTwo(host, w, Append(tid, room), Enter(tid));
    hide Run;
  }

  lemma AppendToView(blocks: seq<Block>, s: Slice, n: AddrInfo, room: nat)
    requires ValidSlice(blocks, s)
    ensures var (blocks', s') := AppendTo(blocks, s, n, room);
            && ValidSlice(blocks', s') && View(blocks', s') == View(blocks, s) + [n] && s'.len == s.len + 1
            && (HasRoom(blocks, s) ==> s'.block == s.block && |blocks'| == |blocks|
                                       && blocks'[s.block].cap == blocks[s.block].cap)
  {
  }

  /** The steps of an addition, one after the other, are the addition on values. */
  lemma AloneIsAdd(host: Peer, w: World, tid: Tid, raw: Raw, room: nat)
    requires ValidSlice(w.blocks, w.arr) && tid !in w.adders
    ensures var w' := Run(host, w, Addition(tid, raw, room));
            Now(w') == Add(host, Now(w), [raw]) && w'.adders == w.adders && w'.loop == w.loop
  {
    hide Run;
    LooksAre(host, w, tid, raw);
    var w1 := Run(host, w, Looks(tid, raw));
    var w2 := Run(host, w1, Writes(tid, room));
    RunSum(host, w, Looks(tid, raw), Writes(tid, room) + [Publish(tid)]);
    RunSum(host, w1, Writes(tid, room), [Publish(tid)]);
    RunOfOne(host, w2, Publish(tid));
    if raw.Parsed? && New(host, w, raw.info) {
      WritesAre(host, w1, tid, room);
      AppendToView(w.blocks, w.arr, raw.info, room);
    } else {
      IdleWrites(host, w1, tid, room);
    }
    hide Looks, Writes, AppendTo, Add;
    FinishesAs(host, w, w2, tid, raw);
  }

  lemma IdleWrites(host: Peer, w: World, tid: Tid, room: nat)
    requires tid in w.adders ==> w.adders[tid].Done?
    ensures Run(host, w, Writes(tid, room)) == w
  {
    RunOfTwo(host, w, Append(tid, room), Enter(tid));
  }

  lemma AddOf(host: Peer, s: State, raw: Raw)
    ensures Add(host, s, [raw]) ==
            if raw.Parsed? && raw.info.id != host && raw.info.id !in s.relayPeers && raw.info.id !in s.nodes
            then State(s.arr + [raw.info], s.nodes[raw.info.id := raw.info], s.relayPeers)
            else s
  {
    assert [raw][1..] == [];
    if raw.Parsed? {
      var n, peers := raw.info, s.relayPeers.Keys;
      assert AddLoop(host, peers, s.arr, s.nodes, []) == Updated(true, s.arr, s.nodes);
      assert AddLoop(host, peers, s.arr + [n], s.nodes[n.id := n], [])
          == Updated(true, s.arr + [n], s.nodes[n.id := n]);
    }
  }

  lemma FinishesAs(host: Peer, w: World, w2: World, tid: Tid, raw: Raw)
    requires tid !in w.adders && w2.loop == w.loop && w2.relayPeers == w.relayPeers
    requires if raw.Unparsable? then w2 == w
             else
               && tid in w2.adders && w2.adders == w.adders[tid := w2.adders[tid]] && w2.adders[tid].Done?
               && var v := View(w2.blocks, w2.adders[tid].held);
                  if New(host, w, raw.info)
                  then v == View(w.blocks, w.arr) + [raw.info] && w2.nodes == w.nodes[raw.info.id := raw.info]
                  else v == View(w.blocks, w.arr) && w2.nodes == w.nodes
    ensures var w' := AfterPublish(w2, tid);
            Now(w') == Add(host, Now(w), [raw]) && w'.adders == w.adders && w'.loop == w.loop
  {
    AddOf(host, Now(w), raw);
    hide View, Add;
    if raw.Parsed? {
      assert w.adders[tid := w2.adders[tid]] - {tid} == w.adders;
    }
  }

  // ---- additions that do not overlap ----

  predicate OneAtATime(host: Peer, w: World, ops: seq<Op>)
    decreases |ops|
  {
    |w.adders| <= 1 && (ops == [] || OneAtATime(host, Step(host, w, ops[0]), ops[1..]))
  }

  ghost predicate AloneAdder(w: World, a: Adder) {
    && Ids(View(w.blocks, a.held)) == Total(w)
    && (Early(a) ==> a.held == w.arr)
    && (a.Tested? ==> a.node.id !in Total(w))
  }

  ghost predicate Alone(w: World) {
    && (w.adders == map[] ==> Complete(w))
    && forall tid | tid in w.adders :: AloneAdder(w, w.adders[tid])
  }

  lemma Sole<V>(m: map<Tid, V>, tid: Tid)
    requires |m| <= 1 && tid in m
    ensures m == map[tid := m[tid]] && m - {tid} == map[]
  {
    assert |m.Keys - {tid}| == 0;
    assert m.Keys == {tid};
  }

  lemma AppendKeepsAlone(w: World, tid: Tid, room: nat)
    requires |w.adders| <= 1 && CanAppend(w, tid) && AloneAdder(w, w.adders[tid])
    ensures Alone(AfterAppend(w, tid, room))
  {
    hide AfterAppend, View, Ids, Total, ValidSlice;
    Sole(w.adders, tid);
    AppendTotal(w, tid, room);
    AppendedView(w, tid, room);
    AppendFrame(w, tid, room);
    IdsOfSum(View(w.blocks, w.adders[tid].held), w.adders[tid].node);
    Sole(AfterAppend(w, tid, room).adders, tid);
  }

  lemma SoleBeingEntered(tid: Tid, a: Adder)
    ensures BeingEntered(map[tid := a]) == if a.Appended? then {a.node.id} else {}
    ensures BeingEntered(map[]) == {}
  {
    assert a.Appended? ==> map[tid := a][tid].Appended?;
  }

  predicate Early(a: Adder) {
    a.Holding? || a.Looked? || a.Tested?
  }

  /** What a step makes of the only adder. */
  lemma SoleStep(host: Peer, w: World, op: Op, a: Adder)
    requires op.Take? || op.Look? || op.Test? || op.Enter? || op.Publish?
    requires w.adders == map[op.tid := a]
    ensures var w' := Step(host, w, op);
            && w'.blocks == w.blocks
            && (w'.adders == map[] ==> w'.arr == if Early(a) then w.arr else a.held)
            && (w'.adders != map[] ==>
                  && op.tid in w'.adders && w'.adders == map[op.tid := w'.adders[op.tid]]
                  && var a' := w'.adders[op.tid];
                     && a'.held == a.held && w'.arr == w.arr && (Early(a') ==> Early(a))
                     && (a'.Tested? ==> w'.nodes == w.nodes && (a == a' || a'.node.id !in w.nodes)))
  {
    assert map[op.tid := a] - {op.tid} == map[];
  }

  /** The adder itself takes a step. */
  lemma SoleMoves(host: Peer, w: World, op: Op, a: Adder)
    requires op.Take? || op.Look? || op.Test? || op.Enter? || op.Publish?
    requires w.adders == map[op.tid := a] && AloneAdder(w, a)
    requires Total(Step(host, w, op)) == Total(w)
    ensures Alone(Step(host, w, op))
  {
    hide Step, View, Ids, BeingEntered;
    SoleStep(host, w, op, a);
    var w' := Step(host, w, op);
    if w'.adders != map[] {
      SoleBeingEntered(op.tid, w'.adders[op.tid]);
    }
  }

  lemma AloneFrame(w: World, w': World)
    requires w'.blocks == w.blocks && w'.arr == w.arr && w'.nodes == w.nodes && w'.adders == w.adders
    requires Alone(w)
    ensures Alone(w')
  {
    hide View, Ids, BeingEntered;
    forall tid | tid in w'.adders ensures AloneAdder(w', w'.adders[tid]) {
      assert AloneAdder(w, w.adders[tid]);
    }
  }

  lemma NotEnabled(host: Peer, w: World, op: Op)
    requires (!OnlyConnects(op) && !op.Take? && op.tid !in w.adders) || (op.Append? && !CanAppend(w, op.tid))
    ensures Step(host, w, op) == w
  {
  }

  lemma FirstTaken(w: World, tid: Tid)
    requires tid !in w.adders && |AfterTake(w, tid).adders| <= 1
    ensures w.adders == map[] && AfterTake(w, tid) == w.(adders := map[tid := Holding(w.arr)])
  {
    Sole(AfterTake(w, tid).adders, tid);
    assert w.adders == AfterTake(w, tid).adders - {tid};
  }

  lemma TakenAlone(host: Peer, w: World, tid: Tid)
    requires Alone(w) && tid !in w.adders && |Step(host, w, Take(tid)).adders| <= 1
    ensures Alone(Step(host, w, Take(tid)))
  {
    hide View, Ids, AfterTake, BeingEntered;
    FirstTaken(w, tid);
    SoleBeingEntered(tid, Holding(w.arr));
    var w' := w.(adders := map[tid := Holding(w.arr)]);
    assert Total(w') == Total(w);
    assert AloneAdder(w', w'.adders[tid]);
  }

  lemma OtherKeepsAlone(host: Peer, first: seq<AddrInfo>, w: World, op: Op)
    requires Inv(host, first, w) && Alone(w) && |w.adders| <= 1 && !Appends(w, op)
    requires |Step(host, w, op).adders| <= 1
    ensures Alone(Step(host, w, op))
  {
    hide Step, Inv, Total, Complete, AloneAdder;
    if OnlyConnects(op) {
      ConnectionsFrame(host, w, op);
      AloneFrame(w, Step(host, w, op));
    } else if op.Take? && op.tid !in w.adders {
      TakenAlone(host, w, op.tid);
    } else if op.Append? || op.tid !in w.adders {
      NotEnabled(host, w, op);
    } else {
      Sole(w.adders, op.tid);
      StepKeeps(host, first, w, op);
      SoleMoves(host, w, op, w.adders[op.tid]);
    }
  }

  lemma {:induction false} AloneRunsKeep(host: Peer, first: seq<AddrInfo>, w: World, ops: seq<Op>)
    requires Inv(host, first, w) && Alone(w) && OneAtATime(host, w, ops)
    ensures FreshAppends(host, w, ops) && Alone(Run(host, w, ops))
    decreases |ops|
  {
    if ops != [] {
      var op := ops[0];
      StepKeeps(host, first, w, op);
      hide Inv, Step, Total, Complete, AloneAdder, AfterAppend;
      if Appends(w, op) {
        assert AloneAdder(w, w.adders[op.tid]);
        AloneIsFresh(w, op.tid);
        AppendKeepsAlone(w, op.tid, op.room);
      } else {
        OtherKeepsAlone(host, first, w, op);
      }
      AloneRunsKeep(host, first, Step(host, w, op), ops[1..]);
    }
  }

  lemma AloneIsFresh(w: World, tid: Tid)
    requires CanAppend(w, tid) && AloneAdder(w, w.adders[tid])
    ensures w.adders[tid].node.id !in Total(w)
  {
  }

  lemma StartsAlone(host: Peer, s: State, room: nat)
    requires Agree(s) && host !in s.nodes && s.relayPeers == map[]
    ensures var w := Started(s, room); Inv(host, s.arr, w) && Alone(w) && Distinct(|s.arr|, w)
  {
    StartKeeps(host, s, room);
  }

  /** When at most one addition is under way at a time, array and map agree whenever none is, and no
      addition brings in a duplicate. */
  lemma AloneRunsAgree(host: Peer, s: State, room: nat, ops: seq<Op>)
    requires Agree(s) && host !in s.nodes && s.relayPeers == map[]
    requires OneAtATime(host, Started(s, room), ops)
    ensures var w := Run(host, Started(s, room), ops);
            && DistinctFrom(|s.arr|, Now(w).arr)
            && (w.adders == map[] ==> Agree(Now(w)) && w.relayPeers.Keys <= w.nodes.Keys)
  {
    hide Run, Memory, FreshAppends, OneAtATime, Started, Ids, View, DistinctFrom, AloneAdder;
    StartsAlone(host, s, room);
    AloneRunsKeep(host, s.arr, Started(s, room), ops);
    FreshRunsKeepDistinct(host, s.arr, Started(s, room), ops);
  }

  // ---- additions that overlap ----

  /** An addition in place, while there is room. */
  lemma AddsInPlace(host: Peer, w: World, tid: Tid, n: AddrInfo)
    requires ValidSlice(w.blocks, w.arr) && HasRoom(w.blocks, w.arr) && tid !in w.adders && New(host, w, n)
    ensures var b := w.blocks[w.arr.block];
            Run(host, w, Addition(tid, Parsed(n), 0)) == w.(
              blocks := w.blocks[w.arr.block := b.(cells := Written(b.cells, w.arr.len, n))],
              arr := Slice(w.arr.block, w.arr.len + 1), nodes := w.nodes[n.id := n])
  {
    hide Run, Written, New;
    var w1 := With(w, tid, Tested(w.arr, n));
    var w2 := Run(host, w1, Writes(tid, 0));
    LooksAre(host, w, tid, Parsed(n));
    WritesAre(host, w1, tid, 0);
    RunOfOne(host, w2, Publish(tid));
    RunSum(host, w, Looks(tid, Parsed(n)), Writes(tid, 0) + [Publish(tid)]);
    RunSum(host, w1, Writes(tid, 0), [Publish(tid)]);
    assert w2.adders - {tid} == w.adders;
  }

  function Overlap(a: Tid, b: Tid, x: AddrInfo, y: AddrInfo, room: nat): seq<Op> {
    Looks(a, Parsed(x)) + (Looks(b, Parsed(y)) + (Writes(a, room) + (Writes(b, room) + [Publish(a), Publish(b)])))
  }

  lemma OverlapIs(host: Peer, w: World, a: Tid, b: Tid, x: AddrInfo, y: AddrInfo, room: nat)
    ensures var w2 := Run(host, Run(host, w, Looks(a, Parsed(x))), Looks(b, Parsed(y)));
            Run(host, w, Overlap(a, b, x, y, room))
            == Run(host, Run(host, Run(host, w2, Writes(a, room)), Writes(b, room)), [Publish(a), Publish(b)])
  {
    hide Run, Looks, Writes;
    var w1 := Run(host, w, Looks(a, Parsed(x)));
    var w2 := Run(host, w1, Looks(b, Parsed(y)));
    var w3 := Run(host, w2, Writes(a, room));
    var ends := [Publish(a), Publish(b)];
    RunSum(host, w3, Writes(b, room), ends);
    RunSum(host, w2, Writes(a, room), Writes(b, room) + ends);
    RunSum(host, w1, Looks(b, Parsed(y)), Writes(a, room) + (Writes(b, room) + ends));
    RunSum(host, w, Looks(a, Parsed(x)), Looks(b, Parsed(y)) + (Writes(a, room) + (Writes(b, room) + ends)));
  }

  lemma BothTested(host: Peer, w: World, a: Tid, b: Tid, x: AddrInfo, y: AddrInfo)
    requires w.adders == map[] && a != b && New(host, w, x) && New(host, w, y)
    ensures Run(host, Run(host, w, Looks(a, Parsed(x))), Looks(b, Parsed(y)))
         == w.(adders := map[a := Tested(w.arr, x), b := Tested(w.arr, y)])
  {
    hide Run;
    LooksAre(host, w, a, Parsed(x));
    var w1 := With(w, a, Tested(w.arr, x));
    LooksAre(host, w1, b, Parsed(y));
  }

  lemma BothWritten(host: Peer, w: World, a: Tid, b: Tid, x: AddrInfo, y: AddrInfo, room: nat)
      returns (s: Slice, t: Slice)
    requires ValidSlice(w.blocks, w.arr) && a != b
    requires w.adders == map[a := Tested(w.arr, x), b := Tested(w.arr, y)]
    ensures var w' := Run(host, Run(host, w, Writes(a, room)), Writes(b, room));
            && w'.arr == w.arr && w'.nodes == w.nodes[x.id := x][y.id := y] && w'.relayPeers == w.relayPeers
            && w'.adders == map[a := Done(s), b := Done(t)]
            && View(w'.blocks, t) == View(w.blocks, w.arr) + [y]
  {
    hide Run;
    WritesAre(host, w, a, room);
    var (blocks, s0) := AppendTo(w.blocks, w.arr, x, room);
    var w1 := With(w, a, Done(s0)).(blocks := blocks, nodes := w.nodes[x.id := x]);
    FrontStays(w.blocks, w.arr, x, room);
    WritesAre(host, w1, b, room);
    var (blocks', t0) := AppendTo(w1.blocks, w.arr, y, room);
    AppendToView(w1.blocks, w.arr, y, room);
    s, t := s0, t0;
    hide AppendTo, View;
  }

  /** A slice keeps showing the same when something is appended behind it. */
  lemma FrontStays(blocks: seq<Block>, s: Slice, n: AddrInfo, room: nat)
    requires ValidSlice(blocks, s)
    ensures var (blocks', s') := AppendTo(blocks, s, n, room);
            ValidSlice(blocks', s) && View(blocks', s) == View(blocks, s)
  {
  }

  lemma BothPublished(host: Peer, w: World, a: Tid, b: Tid, s: Slice, t: Slice)
    requires a != b && w.adders == map[a := Done(s), b := Done(t)]
    ensures Run(host, w, [Publish(a), Publish(b)]) == w.(arr := t, adders := map[])
  {
    RunOfTwo(host, w, Publish(a), Publish(b));
    assert w.adders - {a} == map[b := Done(t)] && map[b := Done(t)] - {b} == map[];
  }

  /** Two additions that overlap: the node published first is in the map, but not in the array, and
      nothing brings it back. */
  lemma OverlapLoses(host: Peer, first: seq<AddrInfo>, w: World, a: Tid, b: Tid, x: AddrInfo, y: AddrInfo, room: nat)
    requires Inv(host, first, w) && w.adders == map[] && a != b
    requires New(host, w, x) && New(host, w, y) && x.id != y.id
    ensures var w' := Run(host, w, Overlap(a, b, x, y, room));
            && Now(w') == State(Now(w).arr + [y], w.nodes[x.id := x][y.id := y], w.relayPeers)
            && w'.adders == map[] && Lost(w', x.id)
  {
    SliceIds(host, first, w, w.arr);
    hide Run, Looks, Writes, Overlap, View, Ids, Memory, Connections;
    OverlapIs(host, w, a, b, x, y, room);
    BothTested(host, w, a, b, x, y);
    var w2 := w.(adders := map[a := Tested(w.arr, x), b := Tested(w.arr, y)]);
    var s, t := BothWritten(host, w2, a, b, x, y, room);
    BothPublished(host, Run(host, Run(host, w2, Writes(a, room)), Writes(b, room)), a, b, s, t);
    IdsOfSum(View(w.blocks, w.arr), y);
  }

  /** Room for k more nodes behind a slice. */
  predicate RoomFor(blocks: seq<Block>, s: Slice, k: nat) {
    ValidSlice(blocks, s) && s.len + k <= blocks[s.block].cap
  }

  /** An adder tests y and waits, while another adds x where y is going to be written. */
  lemma TestedThenOverlapped(host: Peer, w: World, a: Tid, b: Tid, x: AddrInfo, y: AddrInfo)
    requires RoomFor(w.blocks, w.arr, 1) && w.adders == map[] && a != b
    requires New(host, w, x) && New(host, w, y) && x.id != y.id
    ensures var w' := Run(host, Run(host, w, Looks(b, Parsed(y))), Addition(a, Parsed(x), 0));
            var blocks := AppendTo(w.blocks, w.arr, x, 0).0;
            w' == w.(blocks := blocks, arr := Slice(w.arr.block, w.arr.len + 1), nodes := w.nodes[x.id := x],
                     adders := map[b := Tested(w.arr, y)])
  {
    hide Run, Looks, Addition, Written;
    LooksAre(host, w, b, Parsed(y));
    AddsInPlace(host, With(w, b, Tested(w.arr, y)), a, x);
  }

  /** Its append then replaces x in the array, by a node that is not in the map yet. */
  lemma ShownBeforeEntered(host: Peer, w: World, a: Tid, b: Tid, x: AddrInfo, y: AddrInfo)
    requires RoomFor(w.blocks, w.arr, 1) && w.adders == map[] && a != b
    requires New(host, w, x) && New(host, w, y) && x.id != y.id
    ensures var s := Now(Run(host, w, Looks(b, Parsed(y)) + (Addition(a, Parsed(x), 0) + [Append(b, 0)])));
            s.arr == Now(w).arr + [y] && x.id in s.nodes && y.id !in s.nodes
  {
    hide Run, Looks, Addition;
    var w1 := Run(host, w, Looks(b, Parsed(y)));
    var w2 := Run(host, w1, Addition(a, Parsed(x), 0));
    RunSum(host, w1, Addition(a, Parsed(x), 0), [Append(b, 0)]);
    RunSum(host, w, Looks(b, Parsed(y)), Addition(a, Parsed(x), 0) + [Append(b, 0)]);
    TestedThenOverlapped(host, w, a, b, x, y);
    RunOfOne(host, w2, Append(b, 0));
  }

  /** The steps that list y twice: while one adder waits between test and append of y, another adds x and
      then y. */
  function TwoOfOne(a: Tid, b: Tid, x: AddrInfo, y: AddrInfo): seq<Op> {
    Looks(b, Parsed(y)) + (Addition(a, Parsed(x), 0)
      + (Looks(a, Parsed(y)) + (Writes(a, 0) + (Writes(b, 0) + [Publish(b), Publish(a)]))))
  }

  lemma TwoOfOneIs(host: Peer, w: World, a: Tid, b: Tid, x: AddrInfo, y: AddrInfo)
    ensures var w2 := Run(host, Run(host, w, Looks(b, Parsed(y))), Addition(a, Parsed(x), 0));
            var w4 := Run(host, Run(host, w2, Looks(a, Parsed(y))), Writes(a, 0));
            Run(host, w, TwoOfOne(a, b, x, y)) == Run(host, Run(host, w4, Writes(b, 0)), [Publish(b), Publish(a)])
  {
    hide Run, Looks, Addition, Writes;
    var w1 := Run(host, w, Looks(b, Parsed(y)));
    var w2 := Run(host, w1, Addition(a, Parsed(x), 0));
    var w3 := Run(host, w2, Looks(a, Parsed(y)));
    var w4 := Run(host, w3, Writes(a, 0));
    var ends := [Publish(b), Publish(a)];
    RunSum(host, w4, Writes(b, 0), ends);
    RunSum(host, w3, Writes(a, 0), Writes(b, 0) + ends);
    RunSum(host, w2, Looks(a, Parsed(y)), Writes(a, 0) + (Writes(b, 0) + ends));
    var rest := Looks(a, Parsed(y)) + (Writes(a, 0) + (Writes(b, 0) + ends));
    RunSum(host, w1, Addition(a, Parsed(x), 0), rest);
    RunSum(host, w, Looks(b, Parsed(y)), Addition(a, Parsed(x), 0) + rest);
  }

  /** Three appends in place: behind, one further, and over the first. */
  function ThreeWrites(blocks: seq<Block>, s: Slice, x: AddrInfo, y: AddrInfo): (r: seq<Block>)
    requires RoomFor(blocks, s, 2)
    ensures ValidSlice(r, Slice(s.block, s.len + 2))
    ensures View(r, Slice(s.block, s.len + 2)) == View(blocks, s) + [y, y]
  {
    var blocks1 := AppendTo(blocks, s, x, 0).0;
    var blocks2 := AppendTo(blocks1, Slice(s.block, s.len + 1), y, 0).0;
    AppendTo(blocks2, s, y, 0).0
  }

  lemma BothWriteY(host: Peer, w: World, a: Tid, b: Tid, s: Slice, y: AddrInfo)
    requires RoomFor(w.blocks, s, 1) && RoomFor(w.blocks, w.arr, 1) && w.arr == Slice(s.block, s.len + 1)
    requires w.adders == map[b := Tested(s, y)] && a != b && New(host, w, y)
    ensures var blocks := AppendTo(w.blocks, w.arr, y, 0).0;
            ValidSlice(blocks, s) && HasRoom(blocks, s) &&
            Run(host, Run(host, Run(host, w, Looks(a, Parsed(y))), Writes(a, 0)), Writes(b, 0))
            == w.(blocks := AppendTo(blocks, s, y, 0).0, nodes := w.nodes[y.id := y],
                  adders := map[a := Done(Slice(s.block, s.len + 2)), b := Done(w.arr)])
  {
    hide Run, Looks, Writes, Written;
    LooksAre(host, w, a, Parsed(y));
    var w1 := With(w, a, Tested(w.arr, y));
    WritesAre(host, w1, a, 0);
    var w2 := Run(host, w1, Writes(a, 0));
    FrontStays(w.blocks, s, y, 0);
    WritesAre(host, w2, b, 0);
    assert w.nodes[y.id := y][y.id := y] == w.nodes[y.id := y];
  }

  lemma LastWrites(host: Peer, w: World, a: Tid, b: Tid, x: AddrInfo, y: AddrInfo)
    requires RoomFor(w.blocks, w.arr, 2) && a != b
    requires New(host, w, x) && New(host, w, y) && x.id != y.id
    ensures var w2 := w.(blocks := AppendTo(w.blocks, w.arr, x, 0).0, arr := Slice(w.arr.block, w.arr.len + 1),
                         nodes := w.nodes[x.id := x], adders := map[b := Tested(w.arr, y)]);
            Run(host, Run(host, Run(host, w2, Looks(a, Parsed(y))), Writes(a, 0)), Writes(b, 0))
            == w.(blocks := ThreeWrites(w.blocks, w.arr, x, y), arr := w2.arr, nodes := w.nodes[x.id := x][y.id := y],
                  adders := map[a := Done(Slice(w.arr.block, w.arr.len + 2)), b := Done(w2.arr)])
  {
    hide Run, Looks, Writes, View;
    var w2 := w.(blocks := AppendTo(w.blocks, w.arr, x, 0).0, arr := Slice(w.arr.block, w.arr.len + 1),
                 nodes := w.nodes[x.id := x], adders := map[b := Tested(w.arr, y)]);
    AppendToView(w.blocks, w.arr, x, 0);
    BothWriteY(host, w2, a, b, w.arr, y);
    hide AppendTo;
  }

  lemma TwoOfOneEnds(host: Peer, w: World, a: Tid, b: Tid, x: AddrInfo, y: AddrInfo)
    requires RoomFor(w.blocks, w.arr, 2) && w.adders == map[] && a != b
    requires New(host, w, x) && New(host, w, y) && x.id != y.id
    ensures Run(host, w, TwoOfOne(a, b, x, y)) == w.(
              blocks := ThreeWrites(w.blocks, w.arr, x, y), arr := Slice(w.arr.block, w.arr.len + 2),
              nodes := w.nodes[x.id := x][y.id := y], adders := map[])
  {
    hide Run, Looks, Writes, Addition, TwoOfOne, View, AppendTo, ThreeWrites;
    TwoOfOneIs(host, w, a, b, x, y);
    TestedThenOverlapped(host, w, a, b, x, y);
    LastWrites(host, w, a, b, x, y);
    var w5 := w.(blocks := ThreeWrites(w.blocks, w.arr, x, y), arr := Slice(w.arr.block, w.arr.len + 1),
                 nodes := w.nodes[x.id := x][y.id := y],
                 adders := map[a := Done(Slice(w.arr.block, w.arr.len + 2)),
                               b := Done(Slice(w.arr.block, w.arr.len + 1))]);
    BothPublished(host, w5, b, a, Slice(w.arr.block, w.arr.len + 1), Slice(w.arr.block, w.arr.len + 2));
  }

  /** So overlapping additions can list a node twice, for good. */
  lemma ListedTwice(host: Peer, first: seq<AddrInfo>, w: World, a: Tid, b: Tid, x: AddrInfo, y: AddrInfo)
    requires Inv(host, first, w) && RoomFor(w.blocks, w.arr, 2) && w.adders == map[] && a != b
    requires New(host, w, x) && New(host, w, y) && x.id != y.id
    ensures var w' := Run(host, w, TwoOfOne(a, b, x, y));
            && Now(w').arr == Now(w).arr + [y, y] && w'.adders == map[] && Lost(w', x.id)
  {
    SliceIds(host, first, w, w.arr);
    TwoOfOneEnds(host, w, a, b, x, y);
    hide Run, TwoOfOne, Ids, Memory, Connections, ThreeWrites;
    IdsOfConcat(Now(w).arr, [y, y]);
    IdsOfPair(y);
  }

  lemma IdsOfPair(y: AddrInfo)
    ensures Ids([y, y]) == {y.id}
  {
    assert y in [y, y];
  }
}

/**
 When the array and the map of relay nodes agree although additions overlap, and the runs in which they
 do not (core/relay/relay_client.go:139-184).
 */
module RelayOverlap {
  import opened RelaySpec
  import opened RelayRuns

  // ---- no node twice ----

  /** From place k on, no node occurs that occurs before it. */
  ghost predicate DistinctFrom(k: nat, v: seq<AddrInfo>) {
    forall i, j | 0 <= i < j < |v| && k <= j :: v[i].id != v[j].id
  }

  /** Additions have brought in no duplicate, in the array or in an adder's slice. */
  ghost predicate Distinct(k: nat, w: World) {
    && DistinctFrom(k, View(w.blocks, w.arr))
    && forall tid | tid in w.adders :: DistinctFrom(k, View(w.blocks, w.adders[tid].held))
  }

  ghost predicate Shares(w: World, h: Slice, s: Slice) {
    ValidSlice(w.blocks, h) && HasRoom(w.blocks, h) && s.block == h.block && h.len < s.len
  }

  /** A slice that reaches past h shows the node n outside the cell behind h. */
  ghost predicate ShowsElsewhere(w: World, h: Slice, n: AddrInfo, s: Slice) {
    var v := View(w.blocks, s);
    Shares(w, h, s) && h.len < |v| && n.id in Ids(v[..h.len] + v[h.len + 1..])
  }

  /** The append of an adder would write a node next to itself: into its own slice, or into a slice that
      reaches past it in the same block. */
  ghost predicate Twice(w: World, tid: Tid)
    requires CanAppend(w, tid)
  {
    var h, n := w.adders[tid].held, w.adders[tid].node;
    || n.id in Ids(View(w.blocks, h))
    || ShowsElsewhere(w, h, n, w.arr)
    || exists t :: t in w.adders && ShowsElsewhere(w, h, n, w.adders[t].held)
  }

  lemma IdAt(v: seq<AddrInfo>, i: nat)
    requires i < |v|
    ensures v[i].id in Ids(v)
  {
  }

  lemma ExtendedDistinct(k: nat, v: seq<AddrInfo>, n: AddrInfo)
    requires k <= |v| && DistinctFrom(k, v)
    ensures DistinctFrom(k, v + [n]) <==> n.id !in Ids(v)
  {
    var t := v + [n];
    if n.id in Ids(v) {
      var x :| x in v && x.id == n.id;
      var i :| 0 <= i < |v| && v[i] == x;
      assert t[i].id == t[|v|].id;
    } else {
      forall i | 0 <= i < |v| ensures v[i].id != n.id {
        IdAt(v, i);
      }
    }
  }

  lemma OthersHave(v: seq<AddrInfo>, p: nat, id: Peer)
    requires p < |v|
    ensures id in Ids(v[..p] + v[p + 1..]) <==> exists i :: 0 <= i < |v| && i != p && v[i].id == id
  {
    var others := v[..p] + v[p + 1..];
    if id in Ids(others) {
      var x :| x in others && x.id == id;
      var i :| 0 <= i < |others| && others[i] == x;
      assert v[if i < p then i else i + 1].id == id;
    }
    forall i | 0 <= i < |v| && i != p ensures v[i].id in Ids(others) {
      IdAt(others, if i < p then i else i - 1);
    }
  }

  lemma OverwrittenDistinct(k: nat, v: seq<AddrInfo>, p: nat, n: AddrInfo)
    requires k <= p < |v| && DistinctFrom(k, v)
    ensures DistinctFrom(k, v[p := n]) <==> n.id !in Ids(v[..p] + v[p + 1..])
  {
    var t := v[p := n];
    OthersHave(v, p, n.id);
    hide Ids;
    if i :| 0 <= i < |v| && i != p && v[i].id == n.id {
      assert t[i].id == t[p].id;
    }
  }

  /** What an append does to what a slice shows. */
  lemma AppendView(first: seq<AddrInfo>, w: World, tid: Tid, room: nat, s: Slice)
    requires CanAppend(w, tid) && SliceKept(first, w.blocks, s)
    ensures var h := w.adders[tid].held;
            var v := View(w.blocks, s);
            View(AfterAppend(w, tid, room).blocks, s)
            == if Shares(w, h, s) then v[h.len := w.adders[tid].node] else v
  {
  }

  lemma SliceDistinct(first: seq<AddrInfo>, w: World, tid: Tid, room: nat, s: Slice)
    requires CanAppend(w, tid) && SliceKept(first, w.blocks, s) && |first| <= w.adders[tid].held.len
    requires DistinctFrom(|first|, View(w.blocks, s))
    ensures DistinctFrom(|first|, View(AfterAppend(w, tid, room).blocks, s))
        <==> !ShowsElsewhere(w, w.adders[tid].held, w.adders[tid].node, s)
  {
    AppendView(first, w, tid, room, s);
    var h := w.adders[tid].held;
    if Shares(w, h, s) {
      OverwrittenDistinct(|first|, View(w.blocks, s), h.len, w.adders[tid].node);
    }
  }

  lemma MovesDistinct(host: Peer, first: seq<AddrInfo>, w: World, op: Op)
    requires Inv(host, first, w) && Distinct(|first|, w) && !op.Append?
    ensures Distinct(|first|, Step(host, w, op))
  {
    hide DistinctFrom, View, Memory, Connections, AddRelayPeer, Unconnected;
  }

  /** The first duplicate arises exactly by appending a node that another adder has written since it was
      tested. */
  lemma NodeTwiceIff(host: Peer, first: seq<AddrInfo>, w: World, op: Op)
    requires Inv(host, first, w) && Distinct(|first|, w)
    ensures Distinct(|first|, Step(host, w, op)) <==> !(op.Append? && CanAppend(w, op.tid) && Twice(w, op.tid))
  {
    if op.Append? && CanAppend(w, op.tid) {
      AppendDistinct(host, first, w, op.tid, op.room);
    } else if op.Append? {
    } else {
      MovesDistinct(host, first, w, op);
    }
  }

  lemma AppendDistinct(host: Peer, first: seq<AddrInfo>, w: World, tid: Tid, room: nat)
    requires Memory(host, first, w) && Distinct(|first|, w) && CanAppend(w, tid)
    ensures Distinct(|first|, AfterAppend(w, tid, room)) <==> !Twice(w, tid)
  {
    var w' := AfterAppend(w, tid, room);
    var h, n := w.adders[tid].held, w.adders[tid].node;
    AppendFrame(w, tid, room);
    AppendedView(w, tid, room);
    assert AdderKept(host, first, w.blocks, w.adders[tid]);
    ExtendedDistinct(|first|, View(w.blocks, h), n);
    SliceDistinct(first, w, tid, room, w.arr);
    forall t | t in w.adders
      ensures DistinctFrom(|first|, View(w'.blocks, w.adders[t].held))
          <==> !ShowsElsewhere(w, h, n, w.adders[t].held)
    {
      assert AdderKept(host, first, w.blocks, w.adders[t]);
      SliceDistinct(first, w, tid, room, w.adders[t].held);
    }
    hide DistinctFrom, View, ShowsElsewhere, AfterAppend, Memory, Ids;
    assert Twice(w, tid) <==>
      || n.id in Ids(View(w.blocks, h)) || ShowsElsewhere(w, h, n, w.arr)
      || exists t :: t in w.adders && ShowsElsewhere(w, h, n, w.adders[t].held);
  }

  predicate Appends(w: World, op: Op) {
    op.Append? && CanAppend(w, op.tid)
  }

  /** What an adder appends is still new then: its test would succeed again. */
  ghost predicate FreshAppends(host: Peer, w: World, ops: seq<Op>)
    decreases |ops|
  {
    ops == []
    || ((Appends(w, ops[0]) ==> w.adders[ops[0].tid].node.id !in Total(w))
        && FreshAppends(host, Step(host, w, ops[0]), ops[1..]))
  }

  lemma FreshIsNotTwice(host: Peer, first: seq<AddrInfo>, w: World, tid: Tid)
    requires Memory(host, first, w) && CanAppend(w, tid) && w.adders[tid].node.id !in Total(w)
    ensures !Twice(w, tid)
  {
    var h, n := w.adders[tid].held, w.adders[tid].node;
    assert AdderKept(host, first, w.blocks, w.adders[tid]);
    SliceIds(host, first, w, h);
    FreshIsNotElsewhere(host, first, w, h, n, w.arr);
    forall t | t in w.adders ensures !ShowsElsewhere(w, h, n, w.adders[t].held) {
      assert AdderKept(host, first, w.blocks, w.adders[t]);
      FreshIsNotElsewhere(host, first, w, h, n, w.adders[t].held);
    }
    hide View, ShowsElsewhere, Total, Memory;
  }

  lemma FreshIsNotElsewhere(host: Peer, first: seq<AddrInfo>, w: World, h: Slice, n: AddrInfo, s: Slice)
    requires Memory(host, first, w) && SliceKept(first, w.blocks, s) && n.id !in Total(w)
    ensures !ShowsElsewhere(w, h, n, s)
  {
    SliceIds(host, first, w, s);
    hide Total, Memory;
    var v := View(w.blocks, s);
    if h.len < |v| {
      assert forall x | x in v[..h.len] + v[h.len + 1..] :: x in v;
    }
  }

  /** With fresh appends no addition brings in a duplicate. */
  lemma {:induction false} FreshRunsKeepDistinct(host: Peer, first: seq<AddrInfo>, w: World, ops: seq<Op>)
    requires Inv(host, first, w) && Distinct(|first|, w) && FreshAppends(host, w, ops)
    ensures Inv(host, first, Run(host, w, ops)) && Distinct(|first|, Run(host, w, ops))
    decreases |ops|
  {
    hide Distinct, Step, Total, Memory, Connections, Twice;
    if ops != [] {
      var op := ops[0];
      StepKeeps(host, first, w, op);
      if Appends(w, op) {
        FreshIsNotTwice(host, first, w, op.tid);
      }
      NodeTwiceIff(host, first, w, op);
      FreshRunsKeepDistinct(host, first, Step(host, w, op), ops[1..]);
    }
  }

  // ---- when the copies agree ----

  lemma {:induction false} IdsCount(k: nat, v: seq<AddrInfo>)
    requires k <= |v| && DistinctFrom(k, v)
    ensures |Ids(v)| == |Ids(v[..k])| + |v| - k
    decreases |v|
  {
    if k == |v| {
      assert v[..k] == v;
    } else {
      var n := |v| - 1;
      var u := v[..n];
      assert v == u + [v[n]] && u[..k] == v[..k];
      IdsOfSum(u, v[n]);
      IdsCount(k, u);
      if v[n].id in Ids(u) {
        ExtendedDistinct(k, u, v[n]);
        assert false;
      }
    }
  }

  lemma {:induction false} SameSize<T>(s: set<T>, t: set<T>)
    requires s <= t
    ensures |s| <= |t| && (|s| == |t| ==> s == t)
    decreases s
  {
    if s != {} {
      var x :| x in s;
      SameSize(s - {x}, t - {x});
      assert s == s - {x} + {x} && t == t - {x} + {x};
    }
  }

  /** So whether a slice has everything is a matter of its length. */
  lemma CompleteIff(host: Peer, first: seq<AddrInfo>, w: World, s: Slice)
    requires Memory(host, first, w) && SliceKept(first, w.blocks, s)
    requires DistinctFrom(|first|, View(w.blocks, s))
    ensures Ids(View(w.blocks, s)) == Total(w) <==> |Ids(first)| + s.len - |first| == |Total(w)|
  {
    SliceIds(host, first, w, s);
    IdsCount(|first|, View(w.blocks, s));
    hide Total, Memory, DistinctFrom;
    assert View(w.blocks, s)[..|first|] == first;
    SameSize(Ids(View(w.blocks, s)), Total(w));
  }

  /** The adder does not finish in this run. */
  predicate InFlight(host: Peer, w: World, tid: Tid, ops: seq<Op>)
    decreases |ops|
  {
    tid in w.adders && (ops == [] || InFlight(host, Step(host, w, ops[0]), tid, ops[1..]))
  }

  /** No other adder appends in this run. */
  predicate NoOtherAppends(host: Peer, w: World, tid: Tid, ops: seq<Op>)
    decreases |ops|
  {
    ops == [] || ((Appends(w, ops[0]) ==> ops[0].tid == tid)
                  && NoOtherAppends(host, Step(host, w, ops[0]), tid, ops[1..]))
  }

  lemma HeldGrows(host: Peer, w: World, op: Op, tid: Tid)
    requires tid in w.adders && tid in Step(host, w, op).adders
    ensures Step(host, w, op).adders[tid].held.len
         == w.adders[tid].held.len + if Appends(w, op) && op.tid == tid then 1 else 0
  {
    if Appends(w, op) {
      AppendFrame(w, op.tid, op.room);
    }
    hide Unconnected, AddRelayPeer, AppendTo;
  }

  lemma TotalGrows(host: Peer, first: seq<AddrInfo>, w: World, op: Op)
    requires Inv(host, first, w)
    requires Appends(w, op) ==> w.adders[op.tid].node.id !in Total(w)
    ensures |Total(Step(host, w, op))| == |Total(w)| + if Appends(w, op) then 1 else 0
  {
    hide Total, Inv, Step;
    StepKeeps(host, first, w, op);
  }

  /** The nodes grow by what the adder appends itself, and more exactly when others append as well. */
  lemma {:induction false} FlightCounts(host: Peer, first: seq<AddrInfo>, w: World, tid: Tid, ops: seq<Op>)
    requires Inv(host, first, w) && FreshAppends(host, w, ops) && InFlight(host, w, tid, ops)
    ensures tid in Run(host, w, ops).adders
    ensures var w' := Run(host, w, ops);
            var more := |Total(w')| - |Total(w)| - (w'.adders[tid].held.len - w.adders[tid].held.len);
            more >= 0 && (more == 0 <==> NoOtherAppends(host, w, tid, ops))
    decreases |ops|
  {
    hide Inv, Step, Total;
    if ops != [] {
      var op := ops[0];
      var w1 := Step(host, w, op);
      StepKeeps(host, first, w, op);
      TotalGrows(host, first, w, op);
      assert InFlight(host, w1, tid, ops[1..]);
      HeldGrows(host, w, op, tid);
      FlightCounts(host, first, w1, tid, ops[1..]);
    }
  }

  lemma TakesAll(host: Peer, first: seq<AddrInfo>, w: World, tid: Tid)
    requires Inv(host, first, w) && Distinct(|first|, w) && tid !in w.adders
    ensures var w' := AfterTake(w, tid);
            && Inv(host, first, w') && Distinct(|first|, w') && Total(w') == Total(w)
            && w'.adders[tid].held == w.arr
    ensures Complete(w) <==> |Ids(first)| + w.arr.len - |first| == |Total(w)|
  {
    hide Connections, DistinctFrom, Total, View;
    StepKeeps(host, first, w, Take(tid));
    MovesDistinct(host, first, w, Take(tid));
    CompleteIff(host, first, w, w.arr);
    hide Memory;
  }

  lemma PublishFrame(w: World, tid: Tid)
    requires tid in w.adders && w.adders[tid].Done?
    ensures var w' := AfterPublish(w, tid);
            w'.arr == w.adders[tid].held && w'.blocks == w.blocks && w'.nodes == w.nodes
            && BeingEntered(w'.adders) == BeingEntered(w.adders)
  {
    BeingEnteredAfter(w.adders, tid, w.adders[tid]);
  }

  lemma PublishesAll(host: Peer, first: seq<AddrInfo>, w: World, tid: Tid)
    requires Inv(host, first, w) && Distinct(|first|, w) && tid in w.adders && w.adders[tid].Done?
    ensures Complete(AfterPublish(w, tid)) <==> |Ids(first)| + w.adders[tid].held.len - |first| == |Total(w)|
  {
    assert AdderKept(host, first, w.blocks, w.adders[tid]);
    PublishFrame(w, tid);
    hide Memory, Connections, DistinctFrom, BeingEntered, View, AfterPublish, Ids;
    CompleteIff(host, first, w, w.adders[tid].held);
  }

  /** A publication leaves everything that was appended in the array exactly when it was all there when
      the adder took its slice and no other adder has appended since. */
  lemma PublishCompleteIff(host: Peer, first: seq<AddrInfo>, w: World, tid: Tid, ops: seq<Op>)
    requires Inv(host, first, w) && Distinct(|first|, w) && tid !in w.adders
    requires FreshAppends(host, AfterTake(w, tid), ops) && InFlight(host, AfterTake(w, tid), tid, ops)
    requires var a := Run(host, AfterTake(w, tid), ops).adders; tid in a && a[tid].Done?
    ensures Complete(AfterPublish(Run(host, AfterTake(w, tid), ops), tid))
        <==> Complete(w) && NoOtherAppends(host, AfterTake(w, tid), tid, ops)
  {
    hide Inv, Distinct, Total, Run, AfterTake, AfterPublish, FreshAppends, InFlight, NoOtherAppends, Complete;
    var w1 := AfterTake(w, tid);
    TakesAll(host, first, w, tid);
    FreshRunsKeepDistinct(host, first, w1, ops);
    FlightCounts(host, first, w1, tid, ops);
    PublishesAll(host, first, Run(host, w1, ops), tid);
    SliceLonger(host, first, w);
  }

  /** What is complete is as long as can be. */
  lemma SliceLonger(host: Peer, first: seq<AddrInfo>, w: World)
    requires Inv(host, first, w) && Distinct(|first|, w)
    ensures |Ids(first)| + w.arr.len - |first| <= |Total(w)|
  {
    SliceIds(host, first, w, w.arr);
    IdsCount(|first|, View(w.blocks, w.arr));
    assert View(w.blocks, w.arr)[..|first|] == first;
    SameSize(Ids(View(w.blocks, w.arr)), Total(w));
  }

  /** The same for array and map, when no adder is between append and entry before and after. */
  lemma PublishAgreesIff(host: Peer, first: seq<AddrInfo>, w: World, tid: Tid, ops: seq<Op>)
    requires Inv(host, first, w) && Distinct(|first|, w) && tid !in w.adders
    requires FreshAppends(host, AfterTake(w, tid), ops) && InFlight(host, AfterTake(w, tid), tid, ops)
    requires var a := Run(host, AfterTake(w, tid), ops).adders; tid in a && a[tid].Done? && BeingEntered(a) == {}
    requires BeingEntered(w.adders) == {}
    ensures Agree(Now(AfterPublish(Run(host, AfterTake(w, tid), ops), tid)))
        <==> Agree(Now(w)) && NoOtherAppends(host, AfterTake(w, tid), tid, ops)
  {
    PublishCompleteIff(host, first, w, tid, ops);
    PublishFrame(Run(host, AfterTake(w, tid), ops), tid);
    hide Run, AfterTake, AfterPublish, FreshAppends, InFlight, NoOtherAppends, Inv, Distinct, BeingEntered, View, Ids;
  }
}

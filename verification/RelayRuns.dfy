/**
 The relay set under concurrency (core/relay/relay_client.go:139-184, 218-361, 671-720).

 The keep-alive loop and the alive service both add relay nodes, and an addition takes no lock. It
 takes the slice of known nodes, looks at the address it was given, tests whether the node is in the
 map, appends it to its slice, enters it in the map, and publishes its slice. Appending writes behind
 the slice in place while its block has room, so slices of one block see each other's writes. There may
 be any number of adders here, other steps come between any two of theirs, connections are lost at any
 time, and the one keep-alive loop looks for a relay whenever none is connected.

 The configured nodes, `first`, are in the array from setup on.
 */
module RelayRuns {
  import opened RelaySpec

  type Tid = nat

  /** The first `len` cells of a block. */
  datatype Slice = Slice(block: nat, len: nat)

  /** The cells that have been written, and how many there is room for. */
  datatype Block = Block(cells: seq<AddrInfo>, cap: nat)

  datatype Adder =
    | Holding(held: Slice)
    | Looked(held: Slice, node: AddrInfo)
    | Tested(held: Slice, node: AddrInfo)
    | Appended(held: Slice, node: AddrInfo)
    | Done(held: Slice)

  /** Where the keep-alive loop is between its critical sections. */
  datatype Loop = Idle | Checked | Reserving(node: AddrInfo)

  datatype World = World(
    blocks: seq<Block>, arr: Slice, nodes: map<Peer, AddrInfo>, relayPeers: map<Peer, Relay>,
    adders: map<Tid, Adder>, loop: Loop)

  datatype Op =
    | Take(tid: Tid)
    | Look(tid: Tid, raw: Raw)
    | Test(tid: Tid)
    | Append(tid: Tid, room: nat)
    | Enter(tid: Tid)
    | Publish(tid: Tid)
    | Remove(id: Peer)
    | Check
    | Pick(choice: nat)
    | Reserved(ok: bool, expiration: int)

  const MINIMUM_RELAY_CONNECTIONS := 1

  predicate ValidSlice(blocks: seq<Block>, s: Slice) {
    s.block < |blocks| && s.len <= |blocks[s.block].cells|
  }

  /** What a slice shows. */
  function View(blocks: seq<Block>, s: Slice): seq<AddrInfo> {
    if ValidSlice(blocks, s) then blocks[s.block].cells[..s.len] else []
  }

  /** The world as it is when nobody else takes a step. */
  function Now(w: World): State {
    State(View(w.blocks, w.arr), w.nodes, w.relayPeers)
  }

  /** A finished setup; `room` is what the runtime left in the block. */
  function Started(s: State, room: nat): World {
    World([Block(s.arr, |s.arr| + room)], Slice(0, |s.arr|), s.nodes, s.relayPeers, map[], Idle)
  }

  // ---- an addition ----

  function With(w: World, tid: Tid, a: Adder): World {
    w.(adders := w.adders[tid := a])
  }

  function AfterTake(w: World, tid: Tid): World {
    if tid in w.adders then w else With(w, tid, Holding(w.arr))
  }

  /** Parsing, and the tests for the host and for connected relays; an error ends the addition. */
  function AfterLook(host: Peer, w: World, tid: Tid, raw: Raw): World {
    if tid !in w.adders || !w.adders[tid].Holding? then w
    else if raw.Unparsable? then w.(adders := w.adders - {tid})
    else if raw.info.id == host || raw.info.id in w.relayPeers then With(w, tid, Done(w.adders[tid].held))
    else With(w, tid, Looked(w.adders[tid].held, raw.info))
  }

  function AfterTest(w: World, tid: Tid): World {
    if tid !in w.adders || !w.adders[tid].Looked? then w
    else
      var a := w.adders[tid];
      With(w, tid, if a.node.id in w.nodes then Done(a.held) else Tested(a.held, a.node))
  }

  function Written(cells: seq<AddrInfo>, i: nat, n: AddrInfo): (r: seq<AddrInfo>)
    requires i <= |cells|
    ensures i < |r| && r[..i] == cells[..i] && r[i] == n && |r| <= |cells| + 1
  {
    if i < |cells| then cells[i := n] else cells + [n]
  }

  predicate HasRoom(blocks: seq<Block>, s: Slice)
    requires ValidSlice(blocks, s)
  {
    s.len < blocks[s.block].cap
  }

  /** Go's append: in place while there is room, else into a block of its own. */
  function AppendTo(blocks: seq<Block>, s: Slice, n: AddrInfo, room: nat): (seq<Block>, Slice)
    requires ValidSlice(blocks, s)
  {
    var b := blocks[s.block];
    if HasRoom(blocks, s) then
      (blocks[s.block := b.(cells := Written(b.cells, s.len, n))], Slice(s.block, s.len + 1))
    else
      (blocks + [Block(b.cells[..s.len] + [n], s.len + 1 + room)], Slice(|blocks|, s.len + 1))
  }

  predicate CanAppend(w: World, tid: Tid) {
    tid in w.adders && w.adders[tid].Tested? && ValidSlice(w.blocks, w.adders[tid].held)
  }

  function AfterAppend(w: World, tid: Tid, room: nat): World {
    if !CanAppend(w, tid) then w
    else
      var a := w.adders[tid];
      var (blocks, s) := AppendTo(w.blocks, a.held, a.node, room);
      With(w, tid, Appended(s, a.node)).(blocks := blocks)
  }

  predicate Entering(w: World, tid: Tid) {
    tid in w.adders && w.adders[tid].Appended?
  }

  function AfterEnter(w: World, tid: Tid): World {
    if !Entering(w, tid) then w
    else
      var a := w.adders[tid];
      With(w, tid, Done(a.held)).(nodes := w.nodes[a.node.id := a.node])
  }

  function AfterPublish(w: World, tid: Tid): World {
    if tid !in w.adders || !w.adders[tid].Done? then w
    else w.(arr := w.adders[tid].held, adders := w.adders - {tid})
  }

  // ---- connections ----

  function AfterRemove(w: World, id: Peer): World {
    w.(relayPeers := RemoveRelayPeer(Now(w), id).relayPeers)
  }

  function AfterCheck(w: World): World {
    if w.loop.Idle? && |w.relayPeers| < MINIMUM_RELAY_CONNECTIONS then w.(loop := Checked) else w
  }

  function AfterPick(w: World, choice: nat): World {
    if !w.loop.Checked? then w
    else
      var c := Unconnected(Now(w), View(w.blocks, w.arr));
      w.(loop := if c == [] then Idle else Reserving(c[choice % |c|]))
  }

  function AfterReserved(w: World, ok: bool, expiration: int): World {
    if !w.loop.Reserving? then w
    else if !ok then w.(loop := Idle)
    else w.(loop := Idle, relayPeers := AddRelayPeer(Now(w), w.loop.node.id, Unknown, expiration).relayPeers)
  }

  /** `Remove` is an expired reservation as well as a closed connection. */
  function Step(host: Peer, w: World, op: Op): World {
    match op
    case Take(tid) => AfterTake(w, tid)
    case Look(tid, raw) => AfterLook(host, w, tid, raw)
    case Test(tid) => AfterTest(w, tid)
    case Append(tid, room) => AfterAppend(w, tid, room)
    case Enter(tid) => AfterEnter(w, tid)
    case Publish(tid) => AfterPublish(w, tid)
    case Remove(id) => AfterRemove(w, id)
    case Check => AfterCheck(w)
    case Pick(choice) => AfterPick(w, choice)
    case Reserved(ok, expiration) => AfterReserved(w, ok, expiration)
  }

  function Run(host: Peer, w: World, ops: seq<Op>): World
    decreases |ops|
  {
    if ops == [] then w else Run(host, Step(host, w, ops[0]), ops[1..])
  }

  // ---- what holds in every run ----

  /** The nodes between their append and their entry in the map. */
  ghost function BeingEntered(adders: map<Tid, Adder>): set<Peer> {
    set tid | tid in adders && adders[tid].Appended? :: adders[tid].node.id
  }

  lemma BeingEnteredAfter(adders: map<Tid, Adder>, tid: Tid, a: Adder)
    requires tid in adders ==> !adders[tid].Appended?
    ensures BeingEntered(adders[tid := a]) == BeingEntered(adders) + if a.Appended? then {a.node.id} else {}
    ensures BeingEntered(adders - {tid}) == BeingEntered(adders)
  {
    var more, less := adders[tid := a], adders - {tid};
    forall t | t in adders && adders[t].Appended?
      ensures adders[t].node.id in BeingEntered(more) && adders[t].node.id in BeingEntered(less)
    {
      assert more[t] == adders[t] && less[t] == adders[t];
    }
    assert a.Appended? ==> more[tid].Appended? && a.node.id in BeingEntered(more);
  }

  lemma BeingEnteredDone(adders: map<Tid, Adder>, tid: Tid)
    requires tid in adders && adders[tid].Appended?
    ensures var id := adders[tid].node.id;
            BeingEntered(adders[tid := Done(adders[tid].held)]) + {id} == BeingEntered(adders)
  {
    var less := adders[tid := Done(adders[tid].held)];
    forall t | t in adders && adders[t].Appended? && t != tid ensures adders[t].node.id in BeingEntered(less) {
      assert less[t] == adders[t];
    }
  }

  ghost function Total(w: World): set<Peer> {
    w.nodes.Keys + BeingEntered(w.adders)
  }

  ghost predicate BlockKept(host: Peer, first: seq<AddrInfo>, total: set<Peer>, b: Block) {
    && first <= b.cells && |b.cells| <= b.cap
    && forall n | n in b.cells :: n.id in total && n.id != host
  }

  ghost predicate SliceKept(first: seq<AddrInfo>, blocks: seq<Block>, s: Slice) {
    ValidSlice(blocks, s) && |first| <= s.len
  }

  ghost predicate AdderKept(host: Peer, first: seq<AddrInfo>, blocks: seq<Block>, a: Adder) {
    SliceKept(first, blocks, a.held) && (a.Holding? || a.Done? || a.node.id != host)
  }

  ghost predicate Memory(host: Peer, first: seq<AddrInfo>, w: World) {
    && (forall b | b in w.blocks :: BlockKept(host, first, Total(w), b))
    && SliceKept(first, w.blocks, w.arr)
    && (forall tid | tid in w.adders :: AdderKept(host, first, w.blocks, w.adders[tid]))
    && host !in w.nodes
  }

  ghost predicate Connections(total: set<Peer>, relayPeers: map<Peer, Relay>, loop: Loop) {
    && relayPeers.Keys <= total
    && |relayPeers| <= 1
    && (!loop.Idle? ==> relayPeers == map[])
    && (loop.Reserving? ==> loop.node.id in total)
  }

  ghost predicate Inv(host: Peer, first: seq<AddrInfo>, w: World) {
    Memory(host, first, w) && Connections(Total(w), w.relayPeers, w.loop)
  }

  /** The steps of an addition that write neither memory nor map. */
  predicate OnlyMoves(op: Op) {
    op.Take? || op.Look? || op.Test? || op.Publish?
  }

  lemma MovesTotal(host: Peer, w: World, op: Op)
    requires OnlyMoves(op)
    ensures Total(Step(host, w, op)) == Total(w)
  {
    var w' := Step(host, w, op);
    hide BeingEntered, ValidSlice;
    if w' != w && op.tid in w'.adders {
      assert w'.adders == w.adders[op.tid := w'.adders[op.tid]];
      BeingEnteredAfter(w.adders, op.tid, w'.adders[op.tid]);
    } else if w' != w {
      BeingEnteredAfter(w.adders, op.tid, Done(w.arr));
    }
  }

  lemma MoveKeepsAdder(host: Peer, first: seq<AddrInfo>, w: World, op: Op)
    requires SliceKept(first, w.blocks, w.arr) && OnlyMoves(op)
    requires op.tid in w.adders ==> AdderKept(host, first, w.blocks, w.adders[op.tid])
    ensures var w' := Step(host, w, op);
            && SliceKept(first, w.blocks, w'.arr)
            && (op.tid in w'.adders ==> AdderKept(host, first, w.blocks, w'.adders[op.tid]))
  {
    hide SliceKept;
  }

  lemma MoveFrame(host: Peer, w: World, op: Op)
    requires OnlyMoves(op)
    ensures var w' := Step(host, w, op);
            && w'.(arr := w.arr, adders := w.adders) == w
            && w'.adders - {op.tid} == w.adders - {op.tid}
  {
  }

  lemma MovesKeep(host: Peer, first: seq<AddrInfo>, w: World, op: Op)
    requires Inv(host, first, w) && OnlyMoves(op)
    ensures Inv(host, first, Step(host, w, op))
  {
    assert op.tid in w.adders ==> AdderKept(host, first, w.blocks, w.adders[op.tid]);
    hide Total, BlockKept, SliceKept, AdderKept, Connections, Step;
    MovesTotal(host, w, op);
    MoveKeepsAdder(host, first, w, op);
    MoveFrame(host, w, op);
    var w' := Step(host, w, op);
    forall tid | tid in w'.adders ensures AdderKept(host, first, w'.blocks, w'.adders[tid]) {
      if tid != op.tid {
        assert tid in w'.adders - {op.tid} && (w'.adders - {op.tid})[tid] == (w.adders - {op.tid})[tid];
      }
    }
  }

  lemma EnterTotal(w: World, tid: Tid)
    ensures Total(AfterEnter(w, tid)) == Total(w)
  {
    if Entering(w, tid) {
      BeingEnteredDone(w.adders, tid);
    }
  }

  lemma EnterKeeps(host: Peer, first: seq<AddrInfo>, w: World, tid: Tid)
    requires Inv(host, first, w)
    ensures Inv(host, first, AfterEnter(w, tid))
  {
    EnterTotal(w, tid);
    hide Total, BlockKept, SliceKept;
    if Entering(w, tid) {
      assert AdderKept(host, first, w.blocks, w.adders[tid]);
    }
  }

  lemma AppendTotal(w: World, tid: Tid, room: nat)
    requires CanAppend(w, tid)
    ensures Total(AfterAppend(w, tid, room)) == Total(w) + {w.adders[tid].node.id}
  {
    BeingEnteredAfter(w.adders, tid, AfterAppend(w, tid, room).adders[tid]);
  }

  lemma AppendKeepsSlice(first: seq<AddrInfo>, w: World, tid: Tid, room: nat, s: Slice)
    requires CanAppend(w, tid) && SliceKept(first, w.blocks, s)
    ensures SliceKept(first, AfterAppend(w, tid, room).blocks, s)
  {
  }

  /** What was written is in the new slice, and the rest of it is what the adder held. */
  lemma AppendedView(w: World, tid: Tid, room: nat)
    requires CanAppend(w, tid)
    ensures var w' := AfterAppend(w, tid, room);
            && ValidSlice(w'.blocks, w'.adders[tid].held)
            && View(w'.blocks, w'.adders[tid].held)
            == View(w.blocks, w.adders[tid].held) + [w.adders[tid].node]
  {
  }

  lemma AppendKeepsBlock(host: Peer, first: seq<AddrInfo>, w: World, tid: Tid, room: nat, b: Block)
    requires Memory(host, first, w) && CanAppend(w, tid) && b in AfterAppend(w, tid, room).blocks
    ensures BlockKept(host, first, Total(w) + {w.adders[tid].node.id}, b)
  {
    hide Total;
    var h, n := w.adders[tid].held, w.adders[tid].node;
    var source := w.blocks[h.block];
    assert BlockKept(host, first, Total(w), source) && AdderKept(host, first, w.blocks, w.adders[tid]);
    if b in w.blocks {
      assert BlockKept(host, first, Total(w), b);
    } else if HasRoom(w.blocks, h) {
      assert b.cells == Written(source.cells, h.len, n);
      assert forall x | x in b.cells :: x in source.cells || x == n;
    } else {
      assert b.cells == source.cells[..h.len] + [n];
      assert forall x | x in b.cells :: x in source.cells || x == n;
    }
  }

  lemma AppendFrame(w: World, tid: Tid, room: nat)
    requires CanAppend(w, tid)
    ensures var w' := AfterAppend(w, tid, room);
            && w'.(blocks := w.blocks, adders := w.adders) == w
            && w'.adders.Keys == w.adders.Keys
            && (forall t | t in w.adders && t != tid :: w'.adders[t] == w.adders[t])
            && w'.adders[tid].Appended? && w'.adders[tid].node == w.adders[tid].node
            && w'.adders[tid].held.len == w.adders[tid].held.len + 1
  {
  }

  lemma AppendKeepsAdder(host: Peer, first: seq<AddrInfo>, w: World, tid: Tid, room: nat, t: Tid)
    requires CanAppend(w, tid) && t in w.adders
    requires AdderKept(host, first, w.blocks, w.adders[t])
    ensures var w' := AfterAppend(w, tid, room); t in w'.adders && AdderKept(host, first, w'.blocks, w'.adders[t])
  {
    AppendFrame(w, tid, room);
    AppendKeepsSlice(first, w, tid, room, w.adders[t].held);
    AppendedView(w, tid, room);
    hide AfterAppend, View;
  }

  lemma AppendKeeps(host: Peer, first: seq<AddrInfo>, w: World, tid: Tid, room: nat)
    requires Inv(host, first, w) && CanAppend(w, tid)
    ensures Inv(host, first, AfterAppend(w, tid, room))
  {
    hide AfterAppend, BlockKept, SliceKept, AdderKept, Total;
    var w' := AfterAppend(w, tid, room);
    AppendTotal(w, tid, room);
    AppendFrame(w, tid, room);
    AppendKeepsSlice(first, w, tid, room, w.arr);
    forall b | b in w'.blocks ensures BlockKept(host, first, Total(w'), b) {
      AppendKeepsBlock(host, first, w, tid, room, b);
    }
    forall t | t in w'.adders ensures AdderKept(host, first, w'.blocks, w'.adders[t]) {
      AppendKeepsAdder(host, first, w, tid, room, t);
    }
  }

  /** Where an append writes: behind its slice in place while the block has room, shown to every slice of
      the block that reaches so far; otherwise into a block of its own with the room the runtime gives. */
  lemma AppendIs(w: World, tid: Tid, room: nat, i: nat)
    requires CanAppend(w, tid)
    ensures var a, w' := w.adders[tid], AfterAppend(w, tid, room);
            var b := w.blocks[a.held.block];
            if a.held.len < b.cap then
              var b' := w'.blocks[a.held.block];
              && w'.blocks == w.blocks[a.held.block := b'] && w'.adders[tid].held.block == a.held.block
              && b'.cap == b.cap && |b'.cells| == (if a.held.len < |b.cells| then |b.cells| else a.held.len + 1)
              && (i < |b'.cells| ==> b'.cells[i] == if i == a.held.len then a.node else b.cells[i])
            else
              && w'.blocks == w.blocks + [Block(View(w.blocks, a.held) + [a.node], a.held.len + 1 + room)]
              && w'.adders[tid].held.block == |w.blocks|
  {
  }

  predicate OnlyConnects(op: Op) {
    op.Remove? || op.Check? || op.Pick? || op.Reserved?
  }

  /** What happens to connections leaves everything else alone. */
  lemma ConnectionsFrame(host: Peer, w: World, op: Op)
    requires OnlyConnects(op)
    ensures var w' := Step(host, w, op);
            w'.blocks == w.blocks && w'.arr == w.arr && w'.nodes == w.nodes && w'.adders == w.adders
  {
    hide Unconnected, AddRelayPeer;
  }

  lemma RemoveKeeps(total: set<Peer>, p: map<Peer, Relay>, loop: Loop, id: Peer)
    requires Connections(total, p, loop)
    ensures Connections(total, p - {id}, loop)
  {
    assert (p - {id}).Keys == p.Keys - {id};
    if id in p {
      assert |p.Keys - {id}| == |p.Keys| - 1;
    } else {
      assert p - {id} == p;
    }
  }

  lemma PickIsKnown(host: Peer, first: seq<AddrInfo>, w: World, choice: nat)
    requires Memory(host, first, w) && w.loop.Checked?
    ensures var w' := AfterPick(w, choice);
            w'.loop.Reserving? ==> w'.loop.node in View(w.blocks, w.arr) && w'.loop.node.id in Total(w)
  {
    var c := Unconnected(Now(w), View(w.blocks, w.arr));
    hide Unconnected, Total;
    if c != [] {
      assert c[choice % |c|] in c;
      assert BlockKept(host, first, Total(w), w.blocks[w.arr.block]);
    }
  }

  lemma ReservedKeeps(total: set<Peer>, w: World, ok: bool, expiration: int)
    requires Connections(total, w.relayPeers, w.loop)
    ensures var w' := AfterReserved(w, ok, expiration); Connections(total, w'.relayPeers, w'.loop)
  {
    if w.loop.Reserving? && ok {
      assert AfterReserved(w, ok, expiration).relayPeers == map[w.loop.node.id := Relay(expiration, {Unknown})];
    }
  }

  lemma ConnectionsMove(host: Peer, first: seq<AddrInfo>, w: World, op: Op)
    requires Memory(host, first, w) && Connections(Total(w), w.relayPeers, w.loop) && OnlyConnects(op)
    ensures var w' := Step(host, w, op); Connections(Total(w), w'.relayPeers, w'.loop)
  {
    hide Total, Memory, Unconnected, AfterReserved;
    match op
    case Remove(id) => RemoveKeeps(Total(w), w.relayPeers, w.loop, id);
    case Pick(choice) =>
      if w.loop.Checked? { PickIsKnown(host, first, w, choice); }
    case Reserved(ok, expiration) => ReservedKeeps(Total(w), w, ok, expiration);
    case Check =>
  }

  lemma ConnectionsKeep(host: Peer, first: seq<AddrInfo>, w: World, op: Op)
    requires Inv(host, first, w) && OnlyConnects(op)
    ensures Inv(host, first, Step(host, w, op)) && Total(Step(host, w, op)) == Total(w)
  {
    hide Step, Connections, BlockKept, SliceKept, AdderKept, BeingEntered;
    ConnectionsFrame(host, w, op);
    ConnectionsMove(host, first, w, op);
  }

  lemma StepKeeps(host: Peer, first: seq<AddrInfo>, w: World, op: Op)
    requires Inv(host, first, w)
    ensures Inv(host, first, Step(host, w, op))
    ensures Total(Step(host, w, op))
         == Total(w) + if op.Append? && CanAppend(w, op.tid) then {w.adders[op.tid].node.id} else {}
  {
    hide Inv, Total;
    match op
    case Append(tid, room) =>
      if CanAppend(w, tid) {
        AppendTotal(w, tid, room);
        AppendKeeps(host, first, w, tid, room);
      }
    case Enter(tid) =>
      EnterTotal(w, tid);
      EnterKeeps(host, first, w, tid);
    case Remove(_) => ConnectionsKeep(host, first, w, op);
    case Check => ConnectionsKeep(host, first, w, op);
    case Pick(_) => ConnectionsKeep(host, first, w, op);
    case Reserved(_, _) => ConnectionsKeep(host, first, w, op);
    case _ =>
      MovesTotal(host, w, op);
      MovesKeep(host, first, w, op);
  }

  lemma {:induction false} RunKeeps(host: Peer, first: seq<AddrInfo>, w: World, ops: seq<Op>)
    requires Inv(host, first, w)
    ensures Inv(host, first, Run(host, w, ops))
    decreases |ops|
  {
    hide Inv, Step;
    if ops != [] {
      StepKeeps(host, first, w, ops[0]);
      RunKeeps(host, first, Step(host, w, ops[0]), ops[1..]);
    }
  }

  lemma {:induction false} NodesGrow(host: Peer, w: World, ops: seq<Op>)
    ensures w.nodes.Keys <= Run(host, w, ops).nodes.Keys
    decreases |ops|
  {
    if ops != [] {
      assert w.nodes.Keys <= Step(host, w, ops[0]).nodes.Keys by { hide AppendTo, Unconnected, AddRelayPeer; }
      NodesGrow(host, Step(host, w, ops[0]), ops[1..]);
    }
  }

  /** Every node that was appended is in the array. */
  ghost predicate Complete(w: World) {
    Ids(View(w.blocks, w.arr)) == Total(w)
  }

  lemma StartKeeps(host: Peer, s: State, room: nat)
    requires Agree(s) && host !in s.nodes && s.relayPeers == map[]
    ensures Inv(host, s.arr, Started(s, room)) && Complete(Started(s, room)) && Now(Started(s, room)) == s
  {
    var w := Started(s, room);
    assert View(w.blocks, w.arr) == s.arr && BeingEntered(w.adders) == {};
    forall n | n in s.arr ensures n.id in s.nodes.Keys {
      assert n.id in Ids(s.arr);
    }
  }

  lemma SliceIds(host: Peer, first: seq<AddrInfo>, w: World, s: Slice)
    requires Memory(host, first, w) && SliceKept(first, w.blocks, s)
    ensures first <= View(w.blocks, s) && Ids(View(w.blocks, s)) <= Total(w) && host !in Ids(View(w.blocks, s))
  {
    hide Total;
    assert BlockKept(host, first, Total(w), w.blocks[s.block]);
  }

  lemma HostNeverEntered(host: Peer, first: seq<AddrInfo>, w: World)
    requires Memory(host, first, w)
    ensures host !in Total(w)
  {
    forall tid | tid in w.adders && w.adders[tid].Appended? ensures w.adders[tid].node.id != host {
      assert AdderKept(host, first, w.blocks, w.adders[tid]);
    }
  }

  /** Every run from a finished setup, however additions overlap: the configured nodes stay in the array
      and no node leaves the map; the array shows and connections reach only nodes of the map or being
      entered in it, never the host, and at most one is connected. */
  lemma EveryRunKeeps(host: Peer, s: State, room: nat, ops: seq<Op>)
    requires Agree(s) && host !in s.nodes && s.relayPeers == map[]
    ensures var w := Run(host, Started(s, room), ops);
            && s.arr <= Now(w).arr && s.nodes.Keys <= w.nodes.Keys
            && Ids(Now(w).arr) <= Total(w) && host !in Total(w)
            && w.relayPeers.Keys <= Total(w) && |w.relayPeers| <= 1
  {
    var w := Run(host, Started(s, room), ops);
    StartKeeps(host, s, room);
    RunKeeps(host, s.arr, Started(s, room), ops);
    NodesGrow(host, Started(s, room), ops);
    SliceIds(host, s.arr, w, w.arr);
    HostNeverEntered(host, s.arr, w);
  }

  /** The whole story: setup, then any run; between append and entry the map lags behind. */
  lemma RunsFromSetup(host: Peer, raws: seq<Raw>, room: nat, ops: seq<Op>)
    ensures var w := Run(host, Started(Setup(host, State([], map[], map[]), raws), room), ops);
            && host !in w.nodes && host !in Ids(Now(w).arr) && host !in w.relayPeers && |w.relayPeers| <= 1
            && (BeingEntered(w.adders) == {} ==> Ids(Now(w).arr) <= w.nodes.Keys && w.relayPeers.Keys <= w.nodes.Keys)
  {
    SetupStarts(host, State([], map[], map[]), raws);
    EveryRunKeeps(host, Setup(host, State([], map[], map[]), raws), room, ops);
  }

  // ---- the keep-alive loop ----

  /** The loop looks for a relay exactly while none is connected. */
  lemma ChecksIff(host: Peer, w: World)
    requires w.loop.Idle?
    ensures Step(host, w, Check).loop.Checked? <==> w.relayPeers == map[]
    ensures Step(host, w, Check).(loop := Idle) == w
  {
    assert |w.relayPeers| == 0 <==> w.relayPeers.Keys == {};
  }

  /** A removed relay is no longer connected, and no other connection changes. */
  lemma RemoveIs(host: Peer, w: World, id: Peer)
    ensures var w' := Step(host, w, Remove(id));
            && w' == w.(relayPeers := w'.relayPeers)
            && (forall x :: x in w'.relayPeers <==> x in w.relayPeers && x != id)
            && (forall x | x in w'.relayPeers :: w'.relayPeers[x] == w.relayPeers[x])
  {
  }

  /** One round: without a relay it connects a known node if there is one, under the reservation it
      was given; when that fails, or no node is known, everything stays. */
  lemma OneRound(host: Peer, w: World, choice: nat, ok: bool, expiration: int)
    requires w.loop.Idle? && w.relayPeers == map[]
    ensures var w' := Run(host, w, [Check, Pick(choice), Reserved(ok, expiration)]);
            if Now(w).arr == [] || !ok then w' == w
            else
              && w' == w.(relayPeers := w'.relayPeers)
              && exists n :: n in Now(w).arr && w'.relayPeers == map[n.id := Relay(expiration, {Unknown})]
  {
    var w1 := w.(loop := Checked);
    assert Step(host, w, Check) == w1 by { ChecksIff(host, w); }
    hide Unconnected;
    var c := Unconnected(Now(w1), View(w1.blocks, w1.arr));
    assert Now(w).arr == [] <==> c == [] by {
      assert forall n :: n in c <==> n in Now(w).arr;
      assert c != [] ==> c[0] in c;
      assert Now(w).arr != [] ==> Now(w).arr[0] in c;
    }
    var w2 := Step(host, w1, Pick(choice));
    if c != [] {
      assert c[choice % |c|] in c;
    }
    RunOfThree(host, w, Check, Pick(choice), Reserved(ok, expiration));
  }

  lemma RunOfOne(host: Peer, w: World, op: Op)
    ensures Run(host, w, [op]) == Step(host, w, op)
  {
    hide Step;
    assert [op][1..] == [];
  }

  lemma RunOfTwo(host: Peer, w: World, a: Op, b: Op)
    ensures Run(host, w, [a, b]) == Step(host, Step(host, w, a), b)
  {
    hide Step;
    assert [a, b][1..] == [b];
    RunOfOne(host, Step(host, w, a), b);
  }

  lemma RunOfThree(host: Peer, w: World, a: Op, b: Op, c: Op)
    ensures Run(host, w, [a, b, c]) == Step(host, Step(host, Step(host, w, a), b), c)
  {
    hide Step;
    assert [a, b, c][1..] == [b, c];
    RunOfTwo(host, Step(host, w, a), b, c);
  }
}

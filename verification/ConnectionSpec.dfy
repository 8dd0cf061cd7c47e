/**
 The peer table, the pending handshakes and their counters as functions on values
 (core/network/connections.go, core/network/server_identity.go:53-98,
 core/network/server.go:569-614, core/network/identity/identity.go:129-155).

 Counters are derived facts here: `Tally` says which set each one counts, and every operation
 keeps it. `ConnectionServer` has the objects that are updated in place.
 */
module ConnectionSpec {

  type Peer = string

  datatype Direction = Unknown | Inbound | Outbound

  datatype Counts = Counts(inbound: int, outbound: int, pendingInbound: int, pendingOutbound: int, bootnodes: int)

  datatype Config = Config(maxInbound: int, maxOutbound: int, bootnodes: set<Peer>, noDiscover: bool)

  /** The peers with the directions they are connected in, and the counters. */
  datatype Table = Table(peers: map<Peer, map<Direction, bool>>, counts: Counts)

  datatype Net = Net(t: Table, pending: map<Peer, Direction>)

  function Init(): Net {
    Net(Table(map[], Counts(0, 0, 0, 0, 0)), map[])
  }

  /** A connection whose direction is not known is not counted. */
  function UpdateConn(c: Counts, delta: int, d: Direction): Counts {
    match d
    case Inbound => c.(inbound := c.inbound + delta)
    case Outbound => c.(outbound := c.outbound + delta)
    case Unknown => c
  }

  function UpdatePending(c: Counts, delta: int, d: Direction): Counts {
    match d
    case Inbound => c.(pendingInbound := c.pendingInbound + delta)
    case Outbound => c.(pendingOutbound := c.pendingOutbound + delta)
    case Unknown => c
  }

  function UpdateBootnodes(cfg: Config, c: Counts, delta: int, p: Peer): Counts {
    if cfg.noDiscover || p !in cfg.bootnodes then c else c.(bootnodes := c.bootnodes + delta)
  }

  function ActiveCount(c: Counts, d: Direction): int {
    match d
    case Inbound => c.inbound
    case Outbound => c.outbound
    case Unknown => 0
  }

  function PendingCount(c: Counts, d: Direction): int {
    match d
    case Inbound => c.pendingInbound
    case Outbound => c.pendingOutbound
    case Unknown => 0
  }

  function Max(cfg: Config, d: Direction): int {
    match d
    case Inbound => cfg.maxInbound
    case Outbound => cfg.maxOutbound
    case Unknown => 0
  }

  /** Whether a slot is free, the two counters taken at the same time. */
  predicate HasFreeSlot(cfg: Config, c: Counts, d: Direction) {
    d != Unknown && ActiveCount(c, d) + PendingCount(c, d) < Max(cfg, d)
  }

  /** A direction that is not in the map reads as false. */
  predicate On(dirs: map<Direction, bool>, d: Direction) {
    d in dirs && dirs[d]
  }

  predicate Active(t: Table, p: Peer, d: Direction) {
    p in t.peers && On(t.peers[p], d)
  }

  function AddPeer(cfg: Config, t: Table, p: Peer, d: Direction): Table {
    if Active(t, p, d) then t
    else
      var dirs := if p in t.peers then t.peers[p] else map[];
      Table(t.peers[p := dirs[d := true]], UpdateBootnodes(cfg, UpdateConn(t.counts, 1, d), 1, p))
  }

  /** What one direction of a removed peer gives back. */
  function CloseDirection(cfg: Config, c: Counts, p: Peer, dirs: map<Direction, bool>, d: Direction): Counts {
    if On(dirs, d) then UpdateBootnodes(cfg, UpdateConn(c, -1, d), -1, p) else c
  }

  /** The directions in any order give the same counters; this is one order. */
  function CloseAll(cfg: Config, c: Counts, p: Peer, dirs: map<Direction, bool>): Counts {
    var c1 := CloseDirection(cfg, c, p, dirs, Unknown);
    var c2 := CloseDirection(cfg, c1, p, dirs, Inbound);
    CloseDirection(cfg, c2, p, dirs, Outbound)
  }

  function RemovePeer(cfg: Config, t: Table, p: Peer): Table {
    if p !in t.peers then t else Table(t.peers - {p}, CloseAll(cfg, t.counts, p, t.peers[p]))
  }

  function AddPending(n: Net, p: Peer, d: Direction): Net {
    if p in n.pending then n
    else Net(n.t.(counts := UpdatePending(n.t.counts, 1, d)), n.pending[p := d])
  }

  function RemovePending(n: Net, p: Peer): Net {
    if p !in n.pending then n
    else Net(n.t.(counts := UpdatePending(n.t.counts, -1, n.pending[p])), n.pending - {p})
  }

  // ---- what the counters count ----

  ghost function ActiveIn(t: Table, d: Direction): set<Peer> {
    set p | p in t.peers && On(t.peers[p], d)
  }

  ghost function PendingIn(n: Net, d: Direction): set<Peer> {
    set p | p in n.pending && n.pending[p] == d
  }

  /** Bootnodes with a connection in this direction; none is counted without discovery. */
  ghost function BootnodesIn(cfg: Config, t: Table, d: Direction): set<Peer> {
    if cfg.noDiscover then {} else set p | p in ActiveIn(t, d) && p in cfg.bootnodes
  }

  ghost predicate TableTally(cfg: Config, t: Table) {
    && t.counts.inbound == |ActiveIn(t, Inbound)|
    && t.counts.outbound == |ActiveIn(t, Outbound)|
    && t.counts.bootnodes ==
         |BootnodesIn(cfg, t, Unknown)| + |BootnodesIn(cfg, t, Inbound)| + |BootnodesIn(cfg, t, Outbound)|
  }

  ghost predicate Tally(cfg: Config, n: Net) {
    && TableTally(cfg, n.t)
    && n.t.counts.pendingInbound == |PendingIn(n, Inbound)|
    && n.t.counts.pendingOutbound == |PendingIn(n, Outbound)|
  }

  function Bit(b: bool): int {
    if b then 1 else 0
  }

  lemma AddPeerSets(cfg: Config, t: Table, p: Peer, d: Direction, d': Direction)
    ensures var t' := AddPeer(cfg, t, p, d);
            && ActiveIn(t', d') == ActiveIn(t, d') + (if d' == d then {p} else {})
            && BootnodesIn(cfg, t', d') == BootnodesIn(cfg, t, d')
                 + (if d' == d && !cfg.noDiscover && p in cfg.bootnodes then {p} else {})
  {
  }

  lemma AddPeerSizes(cfg: Config, t: Table, p: Peer, d: Direction, d': Direction)
    requires !Active(t, p, d)
    ensures var t' := AddPeer(cfg, t, p, d);
            && |ActiveIn(t', d')| == |ActiveIn(t, d')| + Bit(d' == d)
            && |BootnodesIn(cfg, t', d')| ==
                 |BootnodesIn(cfg, t, d')| + Bit(d' == d && !cfg.noDiscover && p in cfg.bootnodes)
  {
    hide AddPeer;
    AddPeerSets(cfg, t, p, d, d');
  }

  lemma AddPeerCounts(cfg: Config, t: Table, p: Peer, d: Direction)
    requires !Active(t, p, d)
    ensures var c := t.counts;
            var c' := AddPeer(cfg, t, p, d).counts;
            && c'.inbound == c.inbound + Bit(d == Inbound)
            && c'.outbound == c.outbound + Bit(d == Outbound)
            && c'.bootnodes == c.bootnodes + Bit(!cfg.noDiscover && p in cfg.bootnodes)
  {
  }

  lemma AddPeerKeeps(cfg: Config, t: Table, p: Peer, d: Direction)
    requires TableTally(cfg, t)
    ensures TableTally(cfg, AddPeer(cfg, t, p, d))
  {
    if !Active(t, p, d) {
      hide AddPeer, ActiveIn, BootnodesIn;
      AddPeerSizes(cfg, t, p, d, Unknown);
      AddPeerSizes(cfg, t, p, d, Inbound);
      AddPeerSizes(cfg, t, p, d, Outbound);
      AddPeerCounts(cfg, t, p, d);
    }
  }

  lemma RemovePeerSets(cfg: Config, t: Table, p: Peer, d: Direction)
    requires p in t.peers
    ensures var t' := RemovePeer(cfg, t, p);
            && |ActiveIn(t', d)| == |ActiveIn(t, d)| - Bit(On(t.peers[p], d))
            && |BootnodesIn(cfg, t', d)| ==
                 |BootnodesIn(cfg, t, d)| - Bit(On(t.peers[p], d) && !cfg.noDiscover && p in cfg.bootnodes)
  {
    var t' := RemovePeer(cfg, t, p);
    hide CloseAll;
    var a, a' := ActiveIn(t, d), ActiveIn(t', d);
    assert a' == a - {p};
    assert p in a <==> On(t.peers[p], d);
    assert BootnodesIn(cfg, t', d) == BootnodesIn(cfg, t, d) - {p};
  }

  /** The counters a removed peer gives back, direction by direction. */
  lemma CloseAllCounts(cfg: Config, c: Counts, p: Peer, dirs: map<Direction, bool>)
    ensures var c' := CloseAll(cfg, c, p, dirs);
            var boot := !cfg.noDiscover && p in cfg.bootnodes;
            && c'.inbound == c.inbound - Bit(On(dirs, Inbound))
            && c'.outbound == c.outbound - Bit(On(dirs, Outbound))
            && c'.bootnodes == c.bootnodes - Bit(On(dirs, Unknown) && boot)
                 - Bit(On(dirs, Inbound) && boot) - Bit(On(dirs, Outbound) && boot)
            && c'.pendingInbound == c.pendingInbound && c'.pendingOutbound == c.pendingOutbound
  {
  }

  lemma RemovePeerKeeps(cfg: Config, t: Table, p: Peer)
    requires TableTally(cfg, t)
    ensures TableTally(cfg, RemovePeer(cfg, t, p))
  {
    hide CloseAll, ActiveIn, BootnodesIn, On;
    if p in t.peers {
      RemovePeerSets(cfg, t, p, Unknown);
      RemovePeerSets(cfg, t, p, Inbound);
      RemovePeerSets(cfg, t, p, Outbound);
      CloseAllCounts(cfg, t.counts, p, t.peers[p]);
    }
  }

  lemma AddPendingSizes(n: Net, p: Peer, d: Direction, d': Direction)
    requires p !in n.pending
    ensures |PendingIn(AddPending(n, p, d), d')| == |PendingIn(n, d')| + Bit(d' == d)
  {
    assert PendingIn(AddPending(n, p, d), d') == PendingIn(n, d') + (if d' == d then {p} else {});
  }

  lemma AddPendingKeeps(cfg: Config, n: Net, p: Peer, d: Direction)
    requires Tally(cfg, n)
    ensures Tally(cfg, AddPending(n, p, d))
  {
    if p !in n.pending {
      hide PendingIn, TableTally;
      AddPendingSizes(n, p, d, Inbound);
      AddPendingSizes(n, p, d, Outbound);
      SameTallies(cfg, n.t, AddPending(n, p, d).t);
    }
  }

  lemma RemovePendingSizes(n: Net, p: Peer, d: Direction)
    requires p in n.pending
    ensures |PendingIn(RemovePending(n, p), d)| == |PendingIn(n, d)| - Bit(n.pending[p] == d)
  {
    assert PendingIn(RemovePending(n, p), d) == PendingIn(n, d) - {p};
  }

  lemma RemovePendingKeeps(cfg: Config, n: Net, p: Peer)
    requires Tally(cfg, n)
    ensures Tally(cfg, RemovePending(n, p))
  {
    if p in n.pending {
      hide PendingIn, TableTally;
      RemovePendingSizes(n, p, Inbound);
      RemovePendingSizes(n, p, Outbound);
      SameTallies(cfg, n.t, RemovePending(n, p).t);
    }
  }

  lemma SameTallies(cfg: Config, t: Table, t': Table)
    requires TableTally(cfg, t) && t'.peers == t.peers
    requires t'.counts.inbound == t.counts.inbound && t'.counts.outbound == t.counts.outbound
    requires t'.counts.bootnodes == t.counts.bootnodes
    ensures TableTally(cfg, t')
  {
    assert forall d :: ActiveIn(t', d) == ActiveIn(t, d);
    assert forall d :: BootnodesIn(cfg, t', d) == BootnodesIn(cfg, t, d);
  }

  // ---- runs ----

  datatype Op =
    | Connect(p: Peer, d: Direction)
    | Disconnect(p: Peer)
    | StartHandshake(p: Peer, d: Direction)
    | EndHandshake(p: Peer)

  function Step(cfg: Config, n: Net, op: Op): Net {
    match op
    case Connect(p, d) => n.(t := AddPeer(cfg, n.t, p, d))
    case Disconnect(p) => n.(t := RemovePeer(cfg, n.t, p))
    case StartHandshake(p, d) => AddPending(n, p, d)
    case EndHandshake(p) => RemovePending(n, p)
  }

  function Run(cfg: Config, n: Net, ops: seq<Op>): Net
    decreases |ops|
  {
    if ops == [] then n else Run(cfg, Step(cfg, n, ops[0]), ops[1..])
  }

  lemma PendingCountsStay(cfg: Config, t: Table, p: Peer, d: Direction)
    ensures AddPeer(cfg, t, p, d).counts.pendingInbound == t.counts.pendingInbound
    ensures AddPeer(cfg, t, p, d).counts.pendingOutbound == t.counts.pendingOutbound
    ensures RemovePeer(cfg, t, p).counts.pendingInbound == t.counts.pendingInbound
    ensures RemovePeer(cfg, t, p).counts.pendingOutbound == t.counts.pendingOutbound
  {
  }

  lemma StepKeepsTally(cfg: Config, n: Net, op: Op)
    requires Tally(cfg, n)
    ensures Tally(cfg, Step(cfg, n, op))
  {
    match op
    case Connect(p, d) =>
      AddPeerKeeps(cfg, n.t, p, d);
      PendingCountsStay(cfg, n.t, p, d);
    case Disconnect(p) =>
      RemovePeerKeeps(cfg, n.t, p);
      PendingCountsStay(cfg, n.t, p, Unknown);
    case StartHandshake(p, d) => AddPendingKeeps(cfg, n, p, d);
    case EndHandshake(p) => RemovePendingKeeps(cfg, n, p);
  }

  /** Conservation: after any run each counter is the size of the set it stands for, so none is
      negative, and the bootnode counter adds up the directions of every connected bootnode. */
  lemma {:induction false} EveryRunTallies(cfg: Config, n: Net, ops: seq<Op>)
    requires Tally(cfg, n)
    ensures Tally(cfg, Run(cfg, n, ops))
    decreases |ops|
  {
    if ops != [] {
      StepKeepsTally(cfg, n, ops[0]);
      EveryRunTallies(cfg, Step(cfg, n, ops[0]), ops[1..]);
    }
  }

  lemma InitTallies(cfg: Config)
    ensures Tally(cfg, Init())
  {
    assert ActiveIn(Init().t, Inbound) == {} && ActiveIn(Init().t, Outbound) == {};
    assert ActiveIn(Init().t, Unknown) == {};
    assert PendingIn(Init(), Inbound) == {} && PendingIn(Init(), Outbound) == {};
    assert forall d :: BootnodesIn(cfg, Init().t, d) == {};
  }

  /** From the start, spelt out. */
  lemma CountersConserved(cfg: Config, ops: seq<Op>)
    ensures var n := Run(cfg, Init(), ops);
            var c, peers := n.t.counts, n.t.peers;
            && c.inbound == |set p | p in peers && Inbound in peers[p] && peers[p][Inbound]|
            && c.outbound == |set p | p in peers && Outbound in peers[p] && peers[p][Outbound]|
            && c.pendingInbound == |set p | p in n.pending && n.pending[p] == Inbound|
            && c.pendingOutbound == |set p | p in n.pending && n.pending[p] == Outbound|
            && (cfg.noDiscover ==> c.bootnodes == 0)
            && (!cfg.noDiscover ==>
                  c.bootnodes ==
                    |set p | p in cfg.bootnodes && p in peers && Unknown in peers[p] && peers[p][Unknown]|
                    + |set p | p in cfg.bootnodes && p in peers && Inbound in peers[p] && peers[p][Inbound]|
                    + |set p | p in cfg.bootnodes && p in peers && Outbound in peers[p] && peers[p][Outbound]|)
  {
    InitTallies(cfg);
    EveryRunTallies(cfg, Init(), ops);
    var n := Run(cfg, Init(), ops);
    hide Run;
    ActiveSpelt(cfg, n.t, Unknown);
    ActiveSpelt(cfg, n.t, Inbound);
    ActiveSpelt(cfg, n.t, Outbound);
    assert PendingIn(n, Inbound) == set p | p in n.pending && n.pending[p] == Inbound;
    assert PendingIn(n, Outbound) == set p | p in n.pending && n.pending[p] == Outbound;
    hide ActiveIn, BootnodesIn, PendingIn;
  }

  lemma ActiveSpelt(cfg: Config, t: Table, d: Direction)
    ensures ActiveIn(t, d) == set p | p in t.peers && d in t.peers[p] && t.peers[p][d]
    ensures BootnodesIn(cfg, t, d) ==
              if cfg.noDiscover then {}
              else set p | p in cfg.bootnodes && p in t.peers && d in t.peers[p] && t.peers[p][d]
  {
  }

  /** Whoever is active in a direction was connected in it and not disconnected since, and the table has
      no one else... */
  lemma ActiveAfter(cfg: Config, n: Net, op: Op, p: Peer, d: Direction)
    ensures var t, t' := n.t, Step(cfg, n, op).t;
            p in t'.peers && d in t'.peers[p] && t'.peers[p][d] <==>
              op == Connect(p, d) || (p in t.peers && d in t.peers[p] && t.peers[p][d] && op != Disconnect(p))
    ensures p in Step(cfg, n, op).t.peers <==>
              (op.Connect? && op.p == p) || (p in n.t.peers && op != Disconnect(p))
  {
    hide UpdateConn, UpdateBootnodes, CloseAll;
  }

  /** ... and a handshake is pending under the direction it was first started with. */
  lemma PendingAfter(cfg: Config, n: Net, op: Op, p: Peer)
    ensures var n' := Step(cfg, n, op);
            && (p in n'.pending <==>
                  (op.StartHandshake? && op.p == p) || (p in n.pending && op != EndHandshake(p)))
            && (p in n'.pending ==> n'.pending[p] == if p in n.pending then n.pending[p] else op.d)
  {
    hide UpdatePending, AddPeer, RemovePeer;
  }

  /** A slot is free in a direction exactly while connections and handshakes together are fewer than
      that direction's own limit. */
  lemma FreeSlotIff(cfg: Config, n: Net)
    requires Tally(cfg, n)
    ensures HasFreeSlot(cfg, n.t.counts, Inbound) <==>
              |set p | p in n.t.peers && Inbound in n.t.peers[p] && n.t.peers[p][Inbound]|
              + |set p | p in n.pending && n.pending[p] == Inbound| < cfg.maxInbound
    ensures HasFreeSlot(cfg, n.t.counts, Outbound) <==>
              |set p | p in n.t.peers && Outbound in n.t.peers[p] && n.t.peers[p][Outbound]|
              + |set p | p in n.pending && n.pending[p] == Outbound| < cfg.maxOutbound
    ensures !HasFreeSlot(cfg, n.t.counts, Unknown)
  {
    ActiveSpelt(cfg, n.t, Inbound);
    ActiveSpelt(cfg, n.t, Outbound);
    assert PendingIn(n, Inbound) == set p | p in n.pending && n.pending[p] == Inbound;
    assert PendingIn(n, Outbound) == set p | p in n.pending && n.pending[p] == Outbound;
    hide ActiveIn, BootnodesIn, PendingIn;
  }
}

/**
 The peer table, its counters and the pending handshakes updated in place
 (core/network/connections.go, core/network/bootnodes.go, core/network/server_identity.go,
 core/network/server.go, core/network/identity/identity.go).

 Each method runs under the lock, or does the one atomic map operation, that makes it a step of
 `ConnectionSpec` and `Admission`. Metrics, logs and events are not part of this model.
 */
module ConnectionServer {
  import opened ConnectionSpec

  class ConnectionInfo {
    var inboundConnectionCount: int
    var outboundConnectionCount: int
    var pendingInboundConnectionCount: int
    var pendingOutboundConnectionCount: int
    const maxInboundConnectionCount: int
    const maxOutboundConnectionCount: int

    constructor (maxInbound: int, maxOutbound: int)
      ensures inboundConnectionCount == 0 && outboundConnectionCount == 0
      ensures pendingInboundConnectionCount == 0 && pendingOutboundConnectionCount == 0
      ensures maxInboundConnectionCount == maxInbound && maxOutboundConnectionCount == maxOutbound
    {
      inboundConnectionCount, outboundConnectionCount := 0, 0;
      pendingInboundConnectionCount, pendingOutboundConnectionCount := 0, 0;
      maxInboundConnectionCount, maxOutboundConnectionCount := maxInbound, maxOutbound;
    }

    /** These counters together with the bootnode counter, which lives elsewhere. */
    ghost function Abs(bootnodes: int): Counts
      reads this
    {
      Counts(inboundConnectionCount, outboundConnectionCount,
             pendingInboundConnectionCount, pendingOutboundConnectionCount, bootnodes)
    }

    method UpdateConnCountByDirection(delta: int, direction: Direction)
      modifies this
      ensures forall b :: Abs(b) == UpdateConn(old(Abs(b)), delta, direction)
    {
      match direction
      case Inbound => inboundConnectionCount := inboundConnectionCount + delta;
      case Outbound => outboundConnectionCount := outboundConnectionCount + delta;
      case Unknown =>
    }

    method UpdatePendingConnCountByDirection(delta: int, direction: Direction)
      modifies this
      ensures forall b :: Abs(b) == UpdatePending(old(Abs(b)), delta, direction)
    {
      match direction
      case Inbound => pendingInboundConnectionCount := pendingInboundConnectionCount + delta;
      case Outbound => pendingOutboundConnectionCount := pendingOutboundConnectionCount + delta;
      case Unknown =>
    }

    /** Run on its own; it loads the active counter and then the pending one, and `Admission` has the
        two loads as steps of their own. */
    method HasFreeConnectionSlot(direction: Direction) returns (free: bool)
      ensures forall cfg: Config, b |
                cfg.maxInbound == maxInboundConnectionCount && cfg.maxOutbound == maxOutboundConnectionCount ::
                free == HasFreeSlot(cfg, Abs(b), direction)
      ensures free <==> match direction
                        case Inbound =>
                          inboundConnectionCount + pendingInboundConnectionCount < maxInboundConnectionCount
                        case Outbound =>
                          outboundConnectionCount + pendingOutboundConnectionCount < maxOutboundConnectionCount
                        case Unknown => false
    {
      match direction
      case Inbound =>
        var active := inboundConnectionCount;
        var pending := pendingInboundConnectionCount;
        return active + pending < maxInboundConnectionCount;
      case Outbound =>
        var active := outboundConnectionCount;
        var pending := pendingOutboundConnectionCount;
        return active + pending < maxOutboundConnectionCount;
      case Unknown => return false;
    }
  }

  class PeerConnInfo {
    var connDirections: map<Direction, bool>

    constructor ()
      ensures connDirections == map[]
    {
      connDirections := map[];
    }
  }

  class BootnodesWrapper {
    const bootnodesMap: set<Peer>
    var bootnodeConnCount: int

    constructor (bootnodes: set<Peer>)
      ensures bootnodesMap == bootnodes && bootnodeConnCount == 0
    {
      bootnodesMap := bootnodes;
      bootnodeConnCount := 0;
    }
  }

  /** The counters after the directions of `done` have been given back. */
  function CloseSome(cfg: Config, c: Counts, p: Peer, dirs: map<Direction, bool>, done: set<Direction>): Counts {
    CloseAll(cfg, c, p, map d | d in dirs && d in done :: dirs[d])
  }

  lemma CloseOneMore(cfg: Config, c: Counts, p: Peer, dirs: map<Direction, bool>, done: set<Direction>, d: Direction)
    requires d in dirs && d !in done
    ensures CloseSome(cfg, c, p, dirs, done + {d}) == CloseDirection(cfg, CloseSome(cfg, c, p, dirs, done), p, dirs, d)
  {
    var before := map x | x in dirs && x in done :: dirs[x];
    var after := map x | x in dirs && x in done + {d} :: dirs[x];
    assert forall x :: On(after, x) <==> On(before, x) || (x == d && dirs[d]);
  }

  lemma CloseNoneAndAll(cfg: Config, c: Counts, p: Peer, dirs: map<Direction, bool>)
    ensures CloseSome(cfg, c, p, dirs, {}) == c
    ensures CloseSome(cfg, c, p, dirs, dirs.Keys) == CloseAll(cfg, c, p, dirs)
  {
    assert (map d | d in dirs && d in dirs.Keys :: dirs[d]) == dirs;
  }

  class Server {
    var peers: map<Peer, PeerConnInfo>
    const connectionCounts: ConnectionInfo
    const bootnodes: BootnodesWrapper
    const noDiscover: bool

    function Cfg(): Config {
      Config(connectionCounts.maxInboundConnectionCount, connectionCounts.maxOutboundConnectionCount,
             bootnodes.bootnodesMap, noDiscover)
    }

    /** Every peer has a record of its own. */
    ghost predicate Valid()
      reads this
    {
      forall p, q | p in peers && q in peers && p != q :: peers[p] != peers[q]
    }

    ghost function Abs(): Table
      reads this, connectionCounts, bootnodes, peers.Values
    {
      Table(map p | p in peers :: peers[p].connDirections, connectionCounts.Abs(bootnodes.bootnodeConnCount))
    }

    constructor (maxInbound: int, maxOutbound: int, bootnodes: set<Peer>, noDiscover: bool)
      ensures Valid() && fresh(connectionCounts) && fresh(this.bootnodes)
      ensures Cfg() == Config(maxInbound, maxOutbound, bootnodes, noDiscover) && Abs() == Init().t
    {
      peers := map[];
      connectionCounts := new ConnectionInfo(maxInbound, maxOutbound);
      this.bootnodes := new BootnodesWrapper(bootnodes);
      this.noDiscover := noDiscover;
    }

    method UpdateBootnodeConnCount(peerID: Peer, delta: int)
      modifies bootnodes
      ensures connectionCounts.Abs(bootnodes.bootnodeConnCount)
           == UpdateBootnodes(Cfg(), old(connectionCounts.Abs(bootnodes.bootnodeConnCount)), delta, peerID)
    {
      if noDiscover || peerID !in bootnodes.bootnodesMap {
        return;
      }
      bootnodes.bootnodeConnCount := bootnodes.bootnodeConnCount + delta;
    }

    method AddPeerInfo(id: Peer, direction: Direction) returns (existed: bool)
      requires Valid()
      modifies `peers, peers.Values, connectionCounts, bootnodes
      ensures Valid() && Abs() == AddPeer(Cfg(), old(Abs()), id, direction)
      ensures existed == Active(old(Abs()), id, direction)
    {
      if id in peers && direction in peers[id].connDirections && peers[id].connDirections[direction] {
        return true;
      }
      SaveDirection(id, direction);
      connectionCounts.UpdateConnCountByDirection(1, direction);
      UpdateBootnodeConnCount(id, 1);
      existed := false;
    }

    /** The table half of `addPeerInfo`. */
    method SaveDirection(id: Peer, direction: Direction)
      requires Valid()
      modifies `peers, peers.Values
      ensures Valid() && forall x | x in peers.Values :: x in old(peers.Values) || fresh(x)
      ensures var t := old(Abs());
              var dirs := if id in t.peers then t.peers[id] else map[];
              Abs() == t.(peers := t.peers[id := dirs[direction := true]])
    {
      var connectionInfo: PeerConnInfo;
      if id in peers {
        connectionInfo := peers[id];
      } else {
        connectionInfo := new PeerConnInfo();
      }
      connectionInfo.connDirections := connectionInfo.connDirections[direction := true];
      peers := peers[id := connectionInfo];
    }

    method RemovePeerInfo(peerID: Peer) returns (connectionInfo: PeerConnInfo?)
      requires Valid()
      modifies `peers, connectionCounts, bootnodes
      ensures Valid() && Abs() == RemovePeer(Cfg(), old(Abs()), peerID)
      ensures connectionInfo == if peerID in old(peers) then old(peers)[peerID] else null
    {
      if peerID !in peers {
        return null;
      }
      connectionInfo := peers[peerID];
      peers := peers - {peerID};
      CloseDirections(peerID, connectionInfo.connDirections);
      assert Abs().peers == RemovePeer(Cfg(), old(Abs()), peerID).peers;
    }

    /** The loop of `removePeerInfo`, over the directions in any order. */
    method CloseDirections(peerID: Peer, dirs: map<Direction, bool>)
      modifies connectionCounts, bootnodes
      ensures connectionCounts.Abs(bootnodes.bootnodeConnCount)
           == CloseAll(Cfg(), old(connectionCounts.Abs(bootnodes.bootnodeConnCount)), peerID, dirs)
    {
      hide CloseAll, CloseSome;
      ghost var c := connectionCounts.Abs(bootnodes.bootnodeConnCount);
      var todo := dirs.Keys;
      CloseNoneAndAll(Cfg(), c, peerID, dirs);
      assert dirs.Keys - todo == {};
      while todo != {}
        invariant todo <= dirs.Keys
        invariant connectionCounts.Abs(bootnodes.bootnodeConnCount)
               == CloseSome(Cfg(), c, peerID, dirs, dirs.Keys - todo)
        decreases todo
      {
        var d :| d in todo;
        CloseOneMore(Cfg(), c, peerID, dirs, dirs.Keys - todo, d);
        assert dirs.Keys - (todo - {d}) == (dirs.Keys - todo) + {d};
        todo := todo - {d};
        if dirs[d] {
          connectionCounts.UpdateConnCountByDirection(-1, d);
          UpdateBootnodeConnCount(peerID, -1);
        }
      }
      assert dirs.Keys - todo == dirs.Keys;
    }
  }

  class IdentityService {
    const baseServer: Server
    var pendingPeerConnections: map<Peer, Direction>

    constructor (server: Server)
      ensures baseServer == server && pendingPeerConnections == map[]
    {
      baseServer := server;
      pendingPeerConnections := map[];
    }

    ghost function Abs(): Net
      reads this, baseServer, baseServer.connectionCounts, baseServer.bootnodes, baseServer.peers.Values
    {
      Net(baseServer.Abs(), pendingPeerConnections)
    }

    method AddPendingStatus(id: Peer, direction: Direction)
      modifies this, baseServer.connectionCounts
      ensures Abs() == AddPending(old(Abs()), id, direction)
    {
      if id !in pendingPeerConnections {
        pendingPeerConnections := pendingPeerConnections[id := direction];
        baseServer.connectionCounts.UpdatePendingConnCountByDirection(1, direction);
      }
    }

    method RemovePendingStatus(id: Peer)
      modifies this, baseServer.connectionCounts
      ensures Abs() == RemovePending(old(Abs()), id)
    {
      if id in pendingPeerConnections {
        var direction := pendingPeerConnections[id];
        pendingPeerConnections := pendingPeerConnections - {id};
        baseServer.connectionCounts.UpdatePendingConnCountByDirection(-1, direction);
      }
    }

    /** The connected callback run on its own: whether the handshake goroutine is started, or the
        peer turned away for want of a slot. */
    method Connected(peerID: Peer, direction: Direction) returns (started: bool, turnedAway: bool)
      modifies this, baseServer.connectionCounts
      ensures var n := old(Abs());
              var c, limits := n.t.counts, baseServer.connectionCounts;
              var free := match direction
                          case Inbound => c.inbound + c.pendingInbound < limits.maxInboundConnectionCount
                          case Outbound => c.outbound + c.pendingOutbound < limits.maxOutboundConnectionCount
                          case Unknown => false;
              && started == (peerID !in n.pending && free)
              && turnedAway == (peerID !in n.pending && !free)
              && Abs() == if started then AddPending(n, peerID, direction) else n
    {
      if peerID in pendingPeerConnections {
        return false, false;
      }
      var free := baseServer.connectionCounts.HasFreeConnectionSlot(direction);
      if !free {
        return false, true;
      }
      AddPendingStatus(peerID, direction);
      return true, false;
    }

    /** The handshake goroutine run on its own; `save` says that the handshake succeeded and that
        neither side dials temporarily. */
    method Handshake(peerID: Peer, direction: Direction, save: bool)
      requires baseServer.Valid()
      modifies this, baseServer, baseServer.peers.Values, baseServer.connectionCounts, baseServer.bootnodes
      ensures baseServer.Valid()
      ensures var n := old(Abs());
              var t := if save then AddPeer(baseServer.Cfg(), n.t, peerID, direction) else n.t;
              Abs() == RemovePending(n.(t := t), peerID)
    {
      if save {
        var _ := baseServer.AddPeerInfo(peerID, direction);
      }
      RemovePendingStatus(peerID);
    }
  }
}

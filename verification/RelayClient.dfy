/**
 The relay client as an object whose fields change in place (core/relay/relay_client.go:98-348,
 core/relay/relaynodes.go:22-54), each method proved against RelaySpec.
 */
module RelayClient {

  import opened RelaySpec
  import opened RelayUpdates

  /** `nodesMap` is one map shared with every wrapper made from it, so writes to it stay. */
  class RelayClient {
    const host: Peer
    var nodeArr: seq<AddrInfo>
    var nodesMap: map<Peer, AddrInfo>
    var relayPeers: map<Peer, Relay>

    function Abs(): State reads this {
      State(nodeArr, nodesMap, relayPeers)
    }

    constructor (host: Peer)
      ensures this.host == host && Abs() == State([], map[], map[])
    {
      this.host := host;
      nodeArr, nodesMap, relayPeers := [], map[], map[];
    }

    /** `setupRelaynodes` (lines 99-136). */
    method SetupRelaynodes(raws: seq<Raw>) returns (ok: bool)
      modifies this`nodeArr, this`nodesMap
      ensures Abs() == Setup(host, old(Abs()), raws)
      ensures ok <==> raws != [] && Unparsable !in raws
      ensures !ok ==> Abs() == old(Abs())
      ensures ok ==> forall n :: n in nodeArr <==> Parsed(n) in raws && n.id != host
      ensures ok ==> forall id :: id in nodesMap <==> id != host && exists n :: Parsed(n) in raws && n.id == id
      ensures ok ==> forall id | id in nodesMap :: nodesMap[id].id == id && LastOf(raws, nodesMap[id])
    {
      SetupKnows(host, Abs(), raws);
      hide LastOf;
      if |raws| < 1 {
        return false;
      }
      var arr: seq<AddrInfo>, nodes: map<Peer, AddrInfo> := [], map[];
      var i := 0;
      while i < |raws|
        invariant 0 <= i <= |raws|
        invariant Unparsable !in raws[..i]
        invariant SetupLoop(host, arr, nodes, raws[i..]) == SetupLoop(host, [], map[], raws)
      {
        assert raws[i..][1..] == raws[i + 1..] && raws[i..][0] == raws[i];
        if raws[i].Unparsable? {
          return false;
        }
        var n := raws[i].info;
        if n.id != host {
          arr, nodes := arr + [n], nodes[n.id := n];
        }
        i := i + 1;
      }
      assert raws[..i] == raws;
      nodeArr, nodesMap := arr, nodes;
      ok := true;
    }

    /** `addRelaynodes` (lines 139-184): the array is replaced at the end, the map as it goes. */
    method AddRelaynodes(raws: seq<Raw>) returns (ok: bool)
      modifies this`nodeArr, this`nodesMap
      ensures Abs() == Add(host, old(Abs()), raws)
      ensures ok <==> raws != [] && Unparsable !in raws
    {
      if |raws| < 1 {
        return false;
      }
      var arr := nodeArr;
      var i := 0;
      while i < |raws|
        invariant 0 <= i <= |raws| && nodeArr == old(nodeArr)
        invariant Unparsable !in raws[..i]
        invariant AddLoop(host, relayPeers.Keys, arr, nodesMap, raws[i..])
               == AddLoop(host, relayPeers.Keys, old(nodeArr), old(nodesMap), raws)
      {
        assert raws[i..][1..] == raws[i + 1..] && raws[i..][0] == raws[i];
        if raws[i].Unparsable? {
          return false;
        }
        var n := raws[i].info;
        if n.id != host && n.id !in relayPeers && n.id !in nodesMap {
          arr := arr + [n];
          nodesMap := nodesMap[n.id := n];
        }
        i := i + 1;
      }
      assert raws[..i] == raws;
      nodeArr := arr;
      ok := true;
    }

    /** `GetRandomRelaynode` (lines 273-289): `random` stands for the random number drawn. */
    method GetRandomRelaynode(random: nat) returns (found: bool, n: AddrInfo)
      ensures found <==> exists m :: m in nodeArr && m.id !in relayPeers
      ensures found ==> n in nodeArr && n.id !in relayPeers
      ensures var c := Unconnected(Abs(), nodeArr); found ==> c != [] && n == c[random % |c|]
    {
      var c: seq<AddrInfo> := [];
      var i := 0;
      while i < |nodeArr|
        invariant 0 <= i <= |nodeArr|
        invariant c == Unconnected(Abs(), nodeArr[..i])
      {
        assert nodeArr[..i + 1][..i] == nodeArr[..i];
        if nodeArr[i].id !in relayPeers {
          c := c + [nodeArr[i]];
        }
        i := i + 1;
      }
      assert nodeArr[..i] == nodeArr;
      hide Unconnected;
      if c == [] {
        return false, AddrInfo("", "");
      }
      n := c[random % |c|];
      assert n in c;
      found := true;
    }

    /** `addRelayPeerInfo` (lines 299-328): the result says whether the relay was there already in this
        direction. */
    method AddRelayPeerInfo(n: AddrInfo, direction: Direction, expiration: int) returns (existed: bool)
      modifies this`relayPeers
      ensures Abs() == AddRelayPeer(old(Abs()), n.id, direction, expiration)
      ensures existed <==> n.id in old(relayPeers) && direction in old(relayPeers)[n.id].dirs
      ensures existed ==> relayPeers == old(relayPeers)
      ensures !existed ==>
                var had := if n.id in old(relayPeers) then old(relayPeers)[n.id].dirs else {};
                relayPeers == old(relayPeers)[n.id := Relay(expiration, had + {direction})]
    {
      if n.id in relayPeers && direction in relayPeers[n.id].dirs {
        return true;
      }
      var dirs: set<Direction> := {};
      if n.id in relayPeers {
        dirs := relayPeers[n.id].dirs;
      }
      relayPeers := relayPeers[n.id := Relay(expiration, dirs + {direction})];
      assert {} + {direction} == {direction};
      existed := false;
    }

    /** `removeRelayPeerInfo` (lines 332-348). */
    method RemoveRelayPeerInfo(id: Peer) returns (removed: bool)
      modifies this`relayPeers
      ensures Abs() == RemoveRelayPeer(old(Abs()), id)
      ensures removed <==> id in old(relayPeers)
    {
      if id !in relayPeers {
        assert relayPeers - {id} == relayPeers;
        return false;
      }
      relayPeers := relayPeers - {id};
      removed := true;
    }

    /** The pass of the keep-alive loop over a snapshot (lines 226-239), in any order. */
    method RemoveExpired(now: int)
      modifies this`relayPeers
      ensures relayPeers ==
                map id | id in old(relayPeers) && old(relayPeers)[id].expiration >= now :: old(relayPeers)[id]
    {
      var snapshot := relayPeers;
      var todo := snapshot.Keys;
      while todo != {}
        invariant todo <= snapshot.Keys
        invariant relayPeers ==
                  map id | id in snapshot && (id in todo || snapshot[id].expiration >= now) :: snapshot[id]
        decreases todo
      {
        var id :| id in todo;
        if snapshot[id].expiration < now {
          var _ := RemoveRelayPeerInfo(id);
        }
        todo := todo - {id};
      }
    }
  }
}

/**
 The set of relay nodes and the one relay connection as functions on values
 (core/relay/relay_client.go:98-348, core/relay/relaynodes.go). `RelayRuns` has the runs in which
 additions overlap.

 The known nodes are kept twice, in an array and in a map. Addresses that do not parse end an
 update: the map has by then been written, the array has not.
 */
module RelaySpec {

  type Peer = string

  datatype AddrInfo = AddrInfo(id: Peer, addr: string)

  /** A raw address after parsing. */
  datatype Raw = Parsed(info: AddrInfo) | Unparsable

  datatype Direction = Unknown | Inbound | Outbound

  /** A connected relay: the end of its reservation and the directions it is connected in. */
  datatype Relay = Relay(expiration: int, dirs: set<Direction>)

  datatype State = State(arr: seq<AddrInfo>, nodes: map<Peer, AddrInfo>, relayPeers: map<Peer, Relay>)

  datatype Updated = Updated(ok: bool, arr: seq<AddrInfo>, nodes: map<Peer, AddrInfo>)

  function Ids(arr: seq<AddrInfo>): set<Peer> {
    set n | n in arr :: n.id
  }

  /** The loop of `setupRelaynodes`: everything but the host itself is entered, repeats too. */
  function SetupLoop(host: Peer, arr: seq<AddrInfo>, nodes: map<Peer, AddrInfo>, raws: seq<Raw>): Updated
    decreases |raws|
  {
    if raws == [] then Updated(true, arr, nodes)
    else if raws[0].Unparsable? then Updated(false, arr, nodes)
    else
      var n := raws[0].info;
      if n.id == host then SetupLoop(host, arr, nodes, raws[1..])
      else SetupLoop(host, arr + [n], nodes[n.id := n], raws[1..])
  }

  /** `setupRelaynodes`: nothing is set unless every address parses and there is one. */
  function Setup(host: Peer, s: State, raws: seq<Raw>): State {
    var u := SetupLoop(host, [], map[], raws);
    if raws == [] || !u.ok then s else State(u.arr, u.nodes, s.relayPeers)
  }

  /** The loop of `addRelaynodes`: connected and known nodes are left out. */
  function AddLoop(
    host: Peer, peers: set<Peer>, arr: seq<AddrInfo>, nodes: map<Peer, AddrInfo>, raws: seq<Raw>): Updated
    decreases |raws|
  {
    if raws == [] then Updated(true, arr, nodes)
    else if raws[0].Unparsable? then Updated(false, arr, nodes)
    else
      var n := raws[0].info;
      if n.id == host || n.id in peers || n.id in nodes then AddLoop(host, peers, arr, nodes, raws[1..])
      else AddLoop(host, peers, arr + [n], nodes[n.id := n], raws[1..])
  }

  /** `addRelaynodes`: the map is shared and keeps what was entered before an error. */
  function Add(host: Peer, s: State, raws: seq<Raw>): State {
    var u := AddLoop(host, s.relayPeers.Keys, s.arr, s.nodes, raws);
    if raws == [] then s
    else if u.ok then State(u.arr, u.nodes, s.relayPeers)
    else s.(nodes := u.nodes)
  }

  /** The nodes `GetRandomRelaynode` chooses from. */
  function Unconnected(s: State, arr: seq<AddrInfo>): (r: seq<AddrInfo>)
    ensures forall n :: n in r <==> n in arr && n.id !in s.relayPeers
  {
    assert arr != [] ==> arr == arr[..|arr| - 1] + [arr[|arr| - 1]];
    if arr == [] then []
    else Unconnected(s, arr[..|arr| - 1]) + if arr[|arr| - 1].id in s.relayPeers then [] else [arr[|arr| - 1]]
  }

  /** `addRelayPeerInfo`: nothing changes for a direction that is there; another one joins it and brings
      its own reservation. */
  function AddRelayPeer(s: State, id: Peer, direction: Direction, expiration: int): State {
    if id !in s.relayPeers then s.(relayPeers := s.relayPeers[id := Relay(expiration, {direction})])
    else if direction in s.relayPeers[id].dirs then s
    else s.(relayPeers := s.relayPeers[id := Relay(expiration, s.relayPeers[id].dirs + {direction})])
  }

  function RemoveRelayPeer(s: State, id: Peer): State {
    s.(relayPeers := s.relayPeers - {id})
  }

  // ---- the two copies of the known nodes ----

  ghost predicate Agree(s: State) {
    Ids(s.arr) == s.nodes.Keys
  }

  lemma IdsOfSum(arr: seq<AddrInfo>, n: AddrInfo)
    ensures Ids(arr + [n]) == Ids(arr) + {n.id}
  {
    assert forall x :: x in arr + [n] <==> x in arr || x == n;
    assert forall x | x in arr :: x in arr + [n];
  }

  lemma {:induction false} SetupLoopAgrees(host: Peer, arr: seq<AddrInfo>, nodes: map<Peer, AddrInfo>, raws: seq<Raw>)
    requires Ids(arr) == nodes.Keys && host !in nodes
    ensures var u := SetupLoop(host, arr, nodes, raws); Ids(u.arr) == u.nodes.Keys && host !in u.nodes
    decreases |raws|
  {
    if raws != [] && raws[0].Parsed? {
      var n := raws[0].info;
      if n.id == host {
        SetupLoopAgrees(host, arr, nodes, raws[1..]);
      } else {
        IdsOfSum(arr, n);
        SetupLoopAgrees(host, arr + [n], nodes[n.id := n], raws[1..]);
      }
    }
  }

  ghost predicate DistinctIds(arr: seq<AddrInfo>) {
    forall i, j | 0 <= i < j < |arr| :: arr[i].id != arr[j].id
  }

  lemma DistinctCons(n: AddrInfo, rest: seq<AddrInfo>)
    ensures Ids([n] + rest) == {n.id} + Ids(rest)
    ensures DistinctIds(rest) && n.id !in Ids(rest) ==> DistinctIds([n] + rest)
  {
    assert forall x :: x in [n] + rest <==> x == n || x in rest;
    assert forall x | x == n || x in rest :: x in [n] + rest;
    forall j | 0 <= j < |rest| ensures rest[j].id in Ids(rest) {
    }
  }

  /** What the loop adds is new, without repeats, and entered in both copies alike. */
  lemma {:induction false} AddLoopExtends(
    host: Peer, peers: set<Peer>, arr: seq<AddrInfo>, nodes: map<Peer, AddrInfo>, raws: seq<Raw>)
      returns (more: seq<AddrInfo>)
    requires Ids(arr) <= nodes.Keys && host !in nodes
    ensures var u := AddLoop(host, peers, arr, nodes, raws);
            && u.arr == arr + more && u.nodes.Keys == nodes.Keys + Ids(more) && host !in u.nodes
    ensures DistinctIds(more) && Ids(more) !! nodes.Keys
    decreases |raws|
  {
    if raws == [] || raws[0].Unparsable? {
      more := [];
      assert arr + more == arr && nodes.Keys + {} == nodes.Keys;
    } else {
      var n := raws[0].info;
      if n.id == host || n.id in peers || n.id in nodes {
        more := AddLoopExtends(host, peers, arr, nodes, raws[1..]);
      } else {
        IdsOfSum(arr, n);
        var rest := AddLoopExtends(host, peers, arr + [n], nodes[n.id := n], raws[1..]);
        more := [n] + rest;
        assert arr + more == arr + [n] + rest;
        hide DistinctIds, Ids, AddLoop;
        DistinctCons(n, rest);
      }
    }
  }

  /** The host itself, a connected relay, or one of the nodes. */
  predicate Known(host: Peer, peers: set<Peer>, nodes: map<Peer, AddrInfo>, id: Peer) {
    id == host || id in peers || id in nodes
  }

  /** Nothing new comes before the first address that does not parse. */
  predicate NothingNew(host: Peer, peers: set<Peer>, nodes: map<Peer, AddrInfo>, raws: seq<Raw>)
    decreases |raws|
  {
    raws == [] || raws[0].Unparsable?
    || (Known(host, peers, nodes, raws[0].info.id) && NothingNew(host, peers, nodes, raws[1..]))
  }

  lemma {:induction false} NothingNewMeans(host: Peer, peers: set<Peer>, nodes: map<Peer, AddrInfo>, raws: seq<Raw>)
    ensures NothingNew(host, peers, nodes, raws) <==>
            forall i | 0 <= i < |raws| && Unparsable !in raws[..i + 1] :: Known(host, peers, nodes, raws[i].info.id)
    decreases |raws|
  {
    if raws != [] {
      var rest := raws[1..];
      NothingNewMeans(host, peers, nodes, rest);
      assert raws[..1] == [raws[0]];
      if raws[0].Unparsable? {
        forall k | 0 < k <= |raws| ensures Unparsable in raws[..k] {
          assert raws[..k][0] == Unparsable;
        }
      } else {
        assert forall i | 0 <= i < |rest| :: raws[..i + 2] == [raws[0]] + rest[..i + 1] && rest[i] == raws[i + 1];
        assert forall i | 0 < i < |raws| :: raws[i] == rest[i - 1] && raws[..i + 1] == [raws[0]] + rest[..i];
      }
    }
  }

  lemma {:induction false} AddLoopGrowsIff(host: Peer, peers: set<Peer>, arr: seq<AddrInfo>,
                                          nodes: map<Peer, AddrInfo>, raws: seq<Raw>)
    requires Ids(arr) <= nodes.Keys && host !in nodes
    ensures var u := AddLoop(host, peers, arr, nodes, raws);
            && (u.ok <==> Unparsable !in raws)
            && (u.nodes.Keys == nodes.Keys <==> NothingNew(host, peers, nodes, raws))
    decreases |raws|
  {
    if raws != [] && raws[0].Parsed? {
      var n := raws[0].info;
      assert raws == [raws[0]] + raws[1..];
      if Known(host, peers, nodes, n.id) {
        AddLoopGrowsIff(host, peers, arr, nodes, raws[1..]);
      } else {
        IdsOfSum(arr, n);
        AddLoopGrowsIff(host, peers, arr + [n], nodes[n.id := n], raws[1..]);
        var more := AddLoopExtends(host, peers, arr + [n], nodes[n.id := n], raws[1..]);
        assert n.id in AddLoop(host, peers, arr, nodes, raws).nodes;
      }
    }
  }

  /** Adding keeps the copies in agreement exactly when every address parses or all that come before the
      first that does not are known already. */
  lemma AddAgreesIff(host: Peer, s: State, raws: seq<Raw>)
    requires Agree(s) && host !in s.nodes
    ensures Agree(Add(host, s, raws)) <==>
            || Unparsable !in raws
            || forall i | 0 <= i < |raws| && Unparsable !in raws[..i + 1] ::
                 Known(host, s.relayPeers.Keys, s.nodes, raws[i].info.id)
    ensures host !in Add(host, s, raws).nodes
  {
    var peers := s.relayPeers.Keys;
    var more := AddLoopExtends(host, peers, s.arr, s.nodes, raws);
    AddLoopGrowsIff(host, peers, s.arr, s.nodes, raws);
    NothingNewMeans(host, peers, s.nodes, raws);
    hide NothingNew, AddLoop, Known;
    IdsOfConcat(s.arr, more);
  }

  lemma IdsOfConcat(a: seq<AddrInfo>, b: seq<AddrInfo>)
    ensures Ids(a + b) == Ids(a) + Ids(b)
  {
    assert forall x :: x in a + b <==> x in a || x in b;
    assert forall x | x in a || x in b :: x in a + b;
  }

  /** The single address the program adds keeps them in agreement and brings in no duplicate. */
  lemma AddOneAgrees(host: Peer, s: State, raw: Raw)
    requires Agree(s) && host !in s.nodes
    ensures var s' := Add(host, s, [raw]);
            && Agree(s') && host !in s'.nodes && s.nodes.Keys <= s'.nodes.Keys
            && (DistinctIds(s.arr) ==> DistinctIds(s'.arr))
            && s'.relayPeers == s.relayPeers
  {
    AddAgreesIff(host, s, [raw]);
    var more := AddLoopExtends(host, s.relayPeers.Keys, s.arr, s.nodes, [raw]);
    assert [raw][1..] == [];
    if DistinctIds(s.arr) {
      var t := s.arr + more;
      forall i, j | 0 <= i < j < |t| ensures t[i].id != t[j].id {
        if i < |s.arr| <= j {
          assert s.arr[i] in s.arr && s.arr[i].id in Ids(s.arr);
          assert more[j - |s.arr|] in more && t[j].id in Ids(more);
        }
      }
    }
  }

  /** After setup the copies agree and the host is in neither. */
  lemma SetupStarts(host: Peer, s: State, raws: seq<Raw>)
    requires s.arr == [] && s.nodes == map[]
    ensures var s' := Setup(host, s, raws);
            Agree(s') && host !in s'.nodes && s'.relayPeers == s.relayPeers
  {
    SetupLoopAgrees(host, [], map[], raws);
  }
}

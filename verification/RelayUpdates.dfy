/**
 What setting up and adding relay nodes enter, said of the addresses alone
 (core/relay/relay_client.go:99-184).
 */
module RelayUpdates {
  import opened RelaySpec
  import opened Subsequences

  // ---- setup ----

  /** One address more. */
  lemma {:induction false} SetupMore(
    host: Peer, arr: seq<AddrInfo>, nodes: map<Peer, AddrInfo>, raws: seq<Raw>, raw: Raw)
    requires Unparsable !in raws
    ensures var u := SetupLoop(host, arr, nodes, raws);
            u.ok && SetupLoop(host, arr, nodes, raws + [raw]) ==
              if raw.Unparsable? then Updated(false, u.arr, u.nodes)
              else if raw.info.id == host then u
              else Updated(true, u.arr + [raw.info], u.nodes[raw.info.id := raw.info])
    decreases |raws|
  {
    if raws == [] {
      assert raws + [raw] == [raw] && [raw][1..] == [];
    } else {
      var rest := raws[1..];
      assert (raws + [raw])[1..] == rest + [raw] && (raws + [raw])[0] == raws[0];
      assert raws[0] in raws && Unparsable !in rest;
      var n := raws[0].info;
      if n.id == host {
        SetupMore(host, arr, nodes, rest, raw);
      } else {
        SetupMore(host, arr + [n], nodes[n.id := n], rest, raw);
      }
    }
  }

  lemma {:induction false} SetupFails(host: Peer, arr: seq<AddrInfo>, nodes: map<Peer, AddrInfo>, raws: seq<Raw>)
    requires Unparsable in raws
    ensures !SetupLoop(host, arr, nodes, raws).ok
    decreases |raws|
  {
    if raws[0].Parsed? {
      var n := raws[0].info;
      assert Unparsable in raws[1..];
      if n.id == host {
        SetupFails(host, arr, nodes, raws[1..]);
      } else {
        SetupFails(host, arr + [n], nodes[n.id := n], raws[1..]);
      }
    }
  }

  /** The last of the addresses with this id. */
  ghost predicate LastOf(raws: seq<Raw>, n: AddrInfo) {
    exists i :: 0 <= i < |raws| && raws[i] == Parsed(n) && NoneLater(raws, i, n.id)
  }

  ghost predicate NoneLater(raws: seq<Raw>, i: nat, id: Peer) {
    forall j | i < j < |raws| :: raws[j].Parsed? ==> raws[j].info.id != id
  }

  lemma LastOfMore(raws: seq<Raw>, raw: Raw, n: AddrInfo)
    ensures LastOf(raws + [raw], n) <==>
              raw == Parsed(n) || (LastOf(raws, n) && (raw.Parsed? ==> raw.info.id != n.id))
  {
    var more := raws + [raw];
    if LastOf(more, n) {
      var i :| 0 <= i < |more| && more[i] == Parsed(n) && NoneLater(more, i, n.id);
      if i < |raws| {
        assert raws[i] == Parsed(n) && NoneLater(raws, i, n.id) by {
          assert forall j | 0 <= j < |raws| :: raws[j] == more[j];
        }
        assert more[|raws|] == raw;
      }
    }
    if raw == Parsed(n) {
      assert more[|raws|] == Parsed(n) && NoneLater(more, |raws|, n.id);
    } else if LastOf(raws, n) && (raw.Parsed? ==> raw.info.id != n.id) {
      var i :| 0 <= i < |raws| && raws[i] == Parsed(n) && NoneLater(raws, i, n.id);
      assert more[i] == Parsed(n) && NoneLater(more, i, n.id);
    }
  }

  /** The array gets every address but the host's own, each as often as it is configured... */
  lemma {:induction false} SetupLists(host: Peer, raws: seq<Raw>, n: AddrInfo)
    requires Unparsable !in raws
    ensures multiset(SetupLoop(host, [], map[], raws).arr)[n] ==
              if n.id == host then 0 else multiset(raws)[Parsed(n)]
    decreases |raws|
  {
    hide SetupLoop;
    if raws == [] {
      SetupOfNone(host);
    } else {
      var front, last := raws[..|raws| - 1], raws[|raws| - 1];
      assert raws == front + [last] && last in raws;
      SetupLists(host, front, n);
      SetupListsMore(host, front, last, n);
    }
  }

  lemma SetupListsMore(host: Peer, raws: seq<Raw>, raw: Raw, n: AddrInfo)
    requires Unparsable !in raws && raw.Parsed?
    requires multiset(SetupLoop(host, [], map[], raws).arr)[n] ==
               if n.id == host then 0 else multiset(raws)[Parsed(n)]
    ensures multiset(SetupLoop(host, [], map[], raws + [raw]).arr)[n] ==
              if n.id == host then 0 else multiset(raws + [raw])[Parsed(n)]
  {
    hide SetupLoop;
    SetupMore(host, [], map[], raws, raw);
    CountMore(raws, raw, Parsed(n));
    CountMore(SetupLoop(host, [], map[], raws).arr, raw.info, n);
  }

  lemma SetupOfNone(host: Peer)
    ensures SetupLoop(host, [], map[], []).arr == []
  {
  }

  /** ... and the map the last one of each id. */
  lemma {:induction false} SetupMaps(host: Peer, raws: seq<Raw>, id: Peer)
    requires Unparsable !in raws
    ensures var nodes := SetupLoop(host, [], map[], raws).nodes;
            && (id in nodes <==> id != host && exists n :: Parsed(n) in raws && n.id == id)
            && (id in nodes ==> nodes[id].id == id && LastOf(raws, nodes[id]))
    decreases |raws|
  {
    if raws != [] {
      var front, last := raws[..|raws| - 1], raws[|raws| - 1];
      assert raws == front + [last] && last in raws;
      SetupMaps(host, front, id);
      SetupMore(host, [], map[], front, last);
      var nodes := SetupLoop(host, [], map[], raws).nodes;
      if id in nodes {
        LastOfMore(front, last, nodes[id]);
      }
      hide SetupLoop, LastOf;
      assert forall n :: Parsed(n) in raws <==> Parsed(n) in front || last == Parsed(n);
    }
  }

  /** Setup knows exactly the configured nodes but the host itself; without any, or with one that does
      not parse, it sets nothing. */
  lemma SetupKnows(host: Peer, s: State, raws: seq<Raw>)
    ensures var s' := Setup(host, s, raws);
            if raws == [] || Unparsable in raws then s' == s
            else
              && s'.relayPeers == s.relayPeers
              && (forall n :: n in s'.arr <==> Parsed(n) in raws && n.id != host)
              && (forall n :: multiset(s'.arr)[n] == if n.id == host then 0 else multiset(raws)[Parsed(n)])
              && (forall id :: id in s'.nodes <==> id != host && exists n :: Parsed(n) in raws && n.id == id)
              && (forall id | id in s'.nodes :: s'.nodes[id].id == id && LastOf(raws, s'.nodes[id]))
  {
    if Unparsable in raws {
      SetupFails(host, [], map[], raws);
    } else if raws != [] {
      SetupSucceeds(host, raws);
      var s' := Setup(host, s, raws);
      var u := SetupLoop(host, [], map[], raws);
      assert s'.arr == u.arr && s'.nodes == u.nodes;
      hide Setup, SetupLoop, LastOf;
      forall n
        ensures multiset(s'.arr)[n] == if n.id == host then 0 else multiset(raws)[Parsed(n)]
        ensures n in s'.arr <==> Parsed(n) in raws && n.id != host
      {
        SetupLists(host, raws, n);
        assert n in s'.arr <==> multiset(s'.arr)[n] > 0;
        assert Parsed(n) in raws <==> multiset(raws)[Parsed(n)] > 0;
      }
      forall id
        ensures id in s'.nodes <==> id != host && exists n :: Parsed(n) in raws && n.id == id
        ensures id in s'.nodes ==> s'.nodes[id].id == id && LastOf(raws, s'.nodes[id])
      {
        SetupMaps(host, raws, id);
      }
    }
  }

  lemma SetupSucceeds(host: Peer, raws: seq<Raw>)
    requires Unparsable !in raws
    ensures SetupLoop(host, [], map[], raws).ok
  {
    SetupMore(host, [], map[], raws, Unparsable);
  }

  // ---- additions ----

  lemma {:induction false} AddMore(
    host: Peer, peers: set<Peer>, arr: seq<AddrInfo>, nodes: map<Peer, AddrInfo>, raws: seq<Raw>, raw: Raw)
    requires Unparsable !in raws
    ensures var u := AddLoop(host, peers, arr, nodes, raws);
            u.ok && AddLoop(host, peers, arr, nodes, raws + [raw]) ==
              if raw.Unparsable? then Updated(false, u.arr, u.nodes)
              else if raw.info.id == host || raw.info.id in peers || raw.info.id in u.nodes then u
              else Updated(true, u.arr + [raw.info], u.nodes[raw.info.id := raw.info])
    decreases |raws|
  {
    if raws == [] {
      assert raws + [raw] == [raw] && [raw][1..] == [];
    } else {
      var rest := raws[1..];
      assert (raws + [raw])[1..] == rest + [raw] && (raws + [raw])[0] == raws[0];
      assert raws[0] in raws && Unparsable !in rest;
      var n := raws[0].info;
      if n.id == host || n.id in peers || n.id in nodes {
        AddMore(host, peers, arr, nodes, rest, raw);
      } else {
        AddMore(host, peers, arr + [n], nodes[n.id := n], rest, raw);
      }
    }
  }

  /** What comes behind an address that does not parse is not looked at. */
  lemma {:induction false} AddStops(host: Peer, peers: set<Peer>, arr: seq<AddrInfo>, nodes: map<Peer, AddrInfo>,
                                    good: seq<Raw>, rest: seq<Raw>)
    requires Unparsable !in good
    ensures AddLoop(host, peers, arr, nodes, good + [Unparsable] + rest) ==
              AddLoop(host, peers, arr, nodes, good).(ok := false)
    decreases |good|
  {
    var raws := good + [Unparsable] + rest;
    if good == [] {
      assert raws[0] == Unparsable;
    } else {
      assert raws[0] == good[0] && raws[1..] == good[1..] + [Unparsable] + rest;
      assert good[0] in good && Unparsable !in good[1..];
      var n := good[0].info;
      if n.id == host || n.id in peers || n.id in nodes {
        AddStops(host, peers, arr, nodes, good[1..], rest);
      } else {
        AddStops(host, peers, arr + [n], nodes[n.id := n], good[1..], rest);
      }
    }
  }

  /** The first of the addresses with this id. */
  ghost predicate FirstOf(raws: seq<Raw>, n: AddrInfo) {
    exists i :: 0 <= i < |raws| && raws[i] == Parsed(n)
      && forall j | 0 <= j < i :: raws[j].Parsed? ==> raws[j].info.id != n.id
  }

  lemma FirstOfMore(raws: seq<Raw>, raw: Raw, n: AddrInfo)
    requires FirstOf(raws, n) || (raw == Parsed(n) && forall m :: Parsed(m) in raws ==> m.id != n.id)
    ensures FirstOf(raws + [raw], n)
  {
    var more := raws + [raw];
    if FirstOf(raws, n) {
      var i :| 0 <= i < |raws| && raws[i] == Parsed(n)
        && forall j | 0 <= j < i :: raws[j].Parsed? ==> raws[j].info.id != n.id;
      assert more[i] == Parsed(n);
    } else {
      assert more[|raws|] == Parsed(n);
      forall j | 0 <= j < |raws| && more[j].Parsed? ensures more[j].info.id != n.id {
        assert Parsed(raws[j].info) in raws;
      }
    }
  }

  /** The map keeps what it has and gets the first address of each id that is neither the host's nor
      that of a connected relay. */
  lemma {:induction false} AddMaps(
    host: Peer, peers: set<Peer>, arr: seq<AddrInfo>, nodes: map<Peer, AddrInfo>, raws: seq<Raw>, id: Peer)
    requires Unparsable !in raws
    ensures var nodes' := AddLoop(host, peers, arr, nodes, raws).nodes;
            && (id in nodes' <==>
                  id in nodes || (id != host && id !in peers && exists n :: Parsed(n) in raws && n.id == id))
            && (id in nodes ==> nodes'[id] == nodes[id])
            && (id in nodes' && id !in nodes ==> nodes'[id].id == id && FirstOf(raws, nodes'[id]))
    decreases |raws|
  {
    if raws != [] {
      var front, last := raws[..|raws| - 1], raws[|raws| - 1];
      assert raws == front + [last] && last in raws;
      AddMaps(host, peers, arr, nodes, front, id);
      AddMore(host, peers, arr, nodes, front, last);
      hide AddLoop, FirstOf;
      var nodes' := AddLoop(host, peers, arr, nodes, raws).nodes;
      assert forall n :: Parsed(n) in raws <==> Parsed(n) in front || last == Parsed(n);
      if id in nodes' && id !in nodes {
        FirstOfMore(front, last, nodes'[id]);
      }
    }
  }

  /** The array gets what the map got, once each. */
  lemma {:induction false} AddLists(
    host: Peer, peers: set<Peer>, arr: seq<AddrInfo>, nodes: map<Peer, AddrInfo>, raws: seq<Raw>, n: AddrInfo)
    requires Unparsable !in raws
    ensures var u := AddLoop(host, peers, arr, nodes, raws);
            && arr <= u.arr && nodes.Keys <= u.nodes.Keys
            && multiset(u.arr)[n] ==
                 multiset(arr)[n] + if n.id !in nodes && n.id in u.nodes && u.nodes[n.id] == n then 1 else 0
    decreases |raws|
  {
    if raws != [] {
      var front, last := raws[..|raws| - 1], raws[|raws| - 1];
      assert raws == front + [last] && last in raws;
      AddLists(host, peers, arr, nodes, front, n);
      AddMore(host, peers, arr, nodes, front, last);
      hide AddLoop;
      CountMore(AddLoop(host, peers, arr, nodes, front).arr, last.info, n);
    }
  }

  /** An addition alone brings in exactly the nodes that are new: each once in the array, and under its
      first address in the map. */
  lemma AddKnows(host: Peer, s: State, raws: seq<Raw>)
    requires Unparsable !in raws
    ensures var s' := Add(host, s, raws);
            && s'.relayPeers == s.relayPeers && s.arr <= s'.arr
            && (forall id :: id in s'.nodes <==>
                  || id in s.nodes
                  || (id != host && id !in s.relayPeers && exists n :: Parsed(n) in raws && n.id == id))
            && (forall id | id in s.nodes :: s'.nodes[id] == s.nodes[id])
            && (forall id | id in s'.nodes && id !in s.nodes ::
                  s'.nodes[id].id == id && FirstOf(raws, s'.nodes[id]))
            && (forall n :: multiset(s'.arr)[n] ==
                  multiset(s.arr)[n] + if n.id !in s.nodes && n.id in s'.nodes && s'.nodes[n.id] == n then 1 else 0)
  {
    if raws != [] {
      var peers := s.relayPeers.Keys;
      AddMore(host, peers, s.arr, s.nodes, raws, Unparsable);
      AddLists(host, peers, s.arr, s.nodes, raws, AddrInfo("", ""));
      var s' := Add(host, s, raws);
      var u := AddLoop(host, peers, s.arr, s.nodes, raws);
      assert s'.arr == u.arr && s'.nodes == u.nodes && s'.relayPeers == s.relayPeers;
      hide Add, AddLoop, FirstOf;
      forall id
        ensures id in s'.nodes <==>
                  id in s.nodes || (id != host && id !in peers && exists n :: Parsed(n) in raws && n.id == id)
        ensures id in s.nodes ==> s'.nodes[id] == s.nodes[id]
        ensures id in s'.nodes && id !in s.nodes ==> s'.nodes[id].id == id && FirstOf(raws, s'.nodes[id])
      {
        AddMaps(host, peers, s.arr, s.nodes, raws, id);
      }
      forall n
        ensures multiset(s'.arr)[n] ==
                  multiset(s.arr)[n] + if n.id !in s.nodes && n.id in s'.nodes && s'.nodes[n.id] == n then 1 else 0
      {
        AddLists(host, peers, s.arr, s.nodes, raws, n);
      }
    }
  }

  /** With an address that does not parse the array stays, and the map gets what came before it. */
  lemma AddUpToError(host: Peer, s: State, good: seq<Raw>, rest: seq<Raw>)
    requires Unparsable !in good
    ensures Add(host, s, good + [Unparsable] + rest) == s.(nodes := Add(host, s, good).nodes)
  {
    var peers := s.relayPeers.Keys;
    AddStops(host, peers, s.arr, s.nodes, good, rest);
    AddMore(host, peers, s.arr, s.nodes, good, Unparsable);
  }

  // ---- the connected relay ----

  /** A new direction brings its reservation; one that is there changes nothing, nor does any addition
      change another relay. */
  lemma RelayAdded(s: State, id: Peer, direction: Direction, expiration: int)
    ensures var s' := AddRelayPeer(s, id, direction, expiration);
            var had := if id in s.relayPeers then s.relayPeers[id].dirs else {};
            && s'.arr == s.arr && s'.nodes == s.nodes
            && (forall x :: x in s'.relayPeers <==> x == id || x in s.relayPeers)
            && (forall x | x in s.relayPeers && x != id :: s'.relayPeers[x] == s.relayPeers[x])
            && (forall d :: d in s'.relayPeers[id].dirs <==> d == direction || d in had)
            && s'.relayPeers[id].expiration ==
                 if direction in had then s.relayPeers[id].expiration else expiration
  {
  }

  lemma RelayRemoved(s: State, id: Peer)
    ensures var s' := RemoveRelayPeer(s, id);
            && s'.arr == s.arr && s'.nodes == s.nodes
            && (forall x :: x in s'.relayPeers <==> x != id && x in s.relayPeers)
            && (forall x | x in s'.relayPeers :: s'.relayPeers[x] == s.relayPeers[x])
  {
  }

  lemma ChoiceMore(s: State, arr: seq<AddrInfo>, n: AddrInfo)
    ensures var c := Unconnected(s, arr);
            Unconnected(s, arr + [n]) == if n.id in s.relayPeers then c else c + [n]
  {
    assert (arr + [n])[..|arr|] == arr;
    assert Unconnected(s, arr) + [] == Unconnected(s, arr);
  }

  /** The random choice is among the unconnected nodes, each as often as the array has it, in its order. */
  lemma {:induction false} ChoiceIsExact(s: State, arr: seq<AddrInfo>, n: AddrInfo)
    ensures Subseq(Unconnected(s, arr), arr)
    ensures multiset(Unconnected(s, arr))[n] == if n.id in s.relayPeers then 0 else multiset(arr)[n]
    decreases |arr|
  {
    hide Unconnected, Subseq;
    if arr == [] {
      ChoiceOfNone(s);
    } else {
      var front, last := arr[..|arr| - 1], arr[|arr| - 1];
      var c := Unconnected(s, front);
      assert arr == front + [last];
      ChoiceIsExact(s, front, n);
      ChoiceMore(s, front, last);
      SubseqKeep(c, front, last);
      CountMore(front, last, n);
      CountMore(c, last, n);
    }
  }

  lemma ChoiceOfNone(s: State)
    ensures Unconnected(s, []) == [] && Subseq<AddrInfo>([], [])
  {
  }
}

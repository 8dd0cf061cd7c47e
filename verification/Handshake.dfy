/**
 The handshake between any number of nodes (core/network/identity/identity.go:162-216).

 The caller makes its status, calls `Hello` on the peer, compares the two statuses and records the
 peer unless one of them marks the connection as temporary. Calls of many nodes interleave; marks
 and tables change meanwhile, network IDs do not.
 */
module Handshake {

  type NodeId = string

  datatype Node = Node(network: int, temporary: set<NodeId>, peers: set<NodeId>)

  datatype Status = Status(peerID: NodeId, network: int, temporaryDial: bool)

  datatype Call =
    | Sent(caller: NodeId, callee: NodeId, status: Status)
    | Answered(caller: NodeId, callee: NodeId, status: Status, resp: Status)

  datatype World = World(nodes: map<NodeId, Node>, calls: multiset<Call>)

  datatype Event =
    | Begin(caller: NodeId, callee: NodeId)
    | Answer(call: Call)
    | Finish(call: Call)
    | Fail(call: Call)
    | Mark(node: NodeId, peer: NodeId)
    | Unmark(node: NodeId, peer: NodeId)
    | Lose(node: NodeId, peer: NodeId)

  datatype Outcome = Recorded | Temporary | InvalidNetworkID

  /** `constructStatus`. */
  function ConstructStatus(nodes: map<NodeId, Node>, host: NodeId, peer: NodeId): Status
    requires host in nodes
  {
    Status(host, nodes[host].network, peer in nodes[host].temporary)
  }

  /** `Hello`: the peer is the one named in the request. */
  function Hello(nodes: map<NodeId, Node>, host: NodeId, req: Status): Status
    requires host in nodes
  {
    ConstructStatus(nodes, host, req.peerID)
  }

  /** What the caller makes of the two statuses. */
  function Conclude(status: Status, resp: Status): Outcome {
    if status.network != resp.network then InvalidNetworkID
    else if !resp.temporaryDial && !status.temporaryDial then Recorded
    else Temporary
  }

  /** The nodes after an event; one that is not enabled leaves them alone. */
  function NodesAfter(w: World, e: Event): map<NodeId, Node> {
    match e
    case Finish(call) =>
      if call !in w.calls || !call.Answered? || call.caller !in w.nodes then w.nodes
      else if Conclude(call.status, call.resp) != Recorded then w.nodes
      else w.nodes[call.caller := w.nodes[call.caller].(peers := w.nodes[call.caller].peers + {call.callee})]
    case Mark(id, peer) =>
      if id !in w.nodes then w.nodes
      else w.nodes[id := w.nodes[id].(temporary := w.nodes[id].temporary + {peer})]
    case Unmark(id, peer) =>
      if id !in w.nodes then w.nodes
      else w.nodes[id := w.nodes[id].(temporary := w.nodes[id].temporary - {peer})]
    case Lose(id, peer) =>
      if id !in w.nodes then w.nodes
      else w.nodes[id := w.nodes[id].(peers := w.nodes[id].peers - {peer})]
    case _ => w.nodes
  }

  /** The calls in flight after an event. */
  function InFlightAfter(w: World, e: Event): multiset<Call> {
    match e
    case Begin(caller, callee) =>
      if caller !in w.nodes || callee !in w.nodes then w.calls
      else w.calls + multiset{Sent(caller, callee, ConstructStatus(w.nodes, caller, callee))}
    case Answer(call) =>
      if call !in w.calls || !call.Sent? || call.callee !in w.nodes then w.calls
      else
        var answered := Answered(call.caller, call.callee, call.status, Hello(w.nodes, call.callee, call.status));
        w.calls - multiset{call} + multiset{answered}
    case Finish(call) =>
      if call !in w.calls || !call.Answered? || call.caller !in w.nodes then w.calls else w.calls - multiset{call}
    case Fail(call) => w.calls - multiset{call}
    case _ => w.calls
  }

  function Next(w: World, e: Event): World {
    World(NodesAfter(w, e), InFlightAfter(w, e))
  }

  function Run(w: World, es: seq<Event>): World
    decreases |es|
  {
    if es == [] then w else Run(Next(w, es[0]), es[1..])
  }

  /** A status in flight tells the network of the node that made it. */
  ghost predicate Truthful(w: World, id: NodeId, s: Status) {
    s.peerID == id && id in w.nodes && s.network == w.nodes[id].network
  }

  ghost predicate SameNetwork(w: World) {
    && (forall call | call in w.calls :: CallFine(w, call))
    && (forall id, p | id in w.nodes && p in w.nodes[id].peers ::
          p in w.nodes && w.nodes[p].network == w.nodes[id].network)
  }

  lemma NetworksStay(w: World, e: Event)
    ensures Next(w, e).nodes.Keys == w.nodes.Keys
    ensures forall id | id in w.nodes :: Next(w, e).nodes[id].network == w.nodes[id].network
  {
    hide InFlightAfter, Conclude;
  }

  ghost predicate CallFine(w: World, call: Call) {
    && Truthful(w, call.caller, call.status)
    && call.callee in w.nodes
    && (call.Answered? ==> Truthful(w, call.callee, call.resp))
  }

  /** A call in flight was so before, or is made or answered by this step. */
  lemma CallsAfter(w: World, e: Event, call: Call)
    requires call in Next(w, e).calls
    ensures call in w.calls
         || (e.Begin? && e.caller in w.nodes && e.callee in w.nodes
             && call == Sent(e.caller, e.callee, ConstructStatus(w.nodes, e.caller, e.callee)))
         || (e.Answer? && e.call in w.calls && e.call.Sent? && e.call.callee in w.nodes
             && var c := e.call; call == Answered(c.caller, c.callee, c.status, Hello(w.nodes, c.callee, c.status)))
  {
    hide NodesAfter, Hello, ConstructStatus;
    assert w.calls[call] == 0 || call in w.calls;
  }

  /** A recorded peer was so before, or a call that has just concluded names it. */
  lemma PeersAfter(w: World, e: Event, id: NodeId, p: NodeId)
    requires id in w.nodes && id in Next(w, e).nodes && p in Next(w, e).nodes[id].peers
    ensures p in w.nodes[id].peers
         || (e.Finish? && e.call in w.calls && e.call.Answered? && e.call.caller == id && e.call.callee == p
             && e.call.status.network == e.call.resp.network
             && !e.call.status.temporaryDial && !e.call.resp.temporaryDial)
  {
  }

  lemma NextKeepsSameNetwork(w: World, e: Event)
    requires SameNetwork(w)
    ensures SameNetwork(Next(w, e))
  {
    hide Next;
    var w' := Next(w, e);
    NetworksStay(w, e);
    forall call | call in w'.calls ensures CallFine(w', call) {
      CallsAfter(w, e, call);
    }
    forall id, p | id in w'.nodes && p in w'.nodes[id].peers
      ensures p in w'.nodes && w'.nodes[p].network == w'.nodes[id].network
    {
      PeersAfter(w, e, id, p);
    }
  }

  /** Peer tables hold only peers of the same network, in every run. */
  lemma {:induction false} EveryRunSameNetwork(w: World, es: seq<Event>)
    requires SameNetwork(w)
    ensures SameNetwork(Run(w, es))
    decreases |es|
  {
    if es != [] {
      NextKeepsSameNetwork(w, es[0]);
      EveryRunSameNetwork(Next(w, es[0]), es[1..]);
    }
  }

  lemma EmptyTablesAreFine(w: World)
    requires w.calls == multiset{} && forall id | id in w.nodes :: w.nodes[id].peers == {}
    ensures SameNetwork(w)
  {
  }

  /** So from empty tables, spelt out: whoever is recorded is a node of the same network. */
  lemma RecordedShareNetwork(w: World, es: seq<Event>, id: NodeId, p: NodeId)
    requires w.calls == multiset{} && forall x | x in w.nodes :: w.nodes[x].peers == {}
    requires id in Run(w, es).nodes && p in Run(w, es).nodes[id].peers
    ensures p in Run(w, es).nodes && Run(w, es).nodes[p].network == Run(w, es).nodes[id].network
    ensures id in w.nodes && p in w.nodes && w.nodes[p].network == w.nodes[id].network
  {
    EmptyTablesAreFine(w);
    EveryRunSameNetwork(w, es);
    NetworksStayInRuns(w, es);
  }

  lemma {:induction false} NetworksStayInRuns(w: World, es: seq<Event>)
    ensures Run(w, es).nodes.Keys == w.nodes.Keys
    ensures forall id | id in w.nodes :: Run(w, es).nodes[id].network == w.nodes[id].network
    decreases |es|
  {
    if es != [] {
      NetworksStay(w, es[0]);
      NetworksStayInRuns(Next(w, es[0]), es[1..]);
    }
  }

  /** A node marks a peer from the moment it is told to until it takes the mark back... */
  lemma MarkedIff(w: World, e: Event, a: NodeId, b: NodeId)
    requires a in w.nodes
    ensures b in Next(w, e).nodes[a].temporary <==>
              e == Mark(a, b) || (b in w.nodes[a].temporary && e != Unmark(a, b))
  {
    hide InFlightAfter, Conclude;
  }

  /** ... and has it in its table from the end of a call that neither side marks until it is lost. */
  lemma InTableIff(w: World, e: Event, a: NodeId, b: NodeId)
    requires a in w.nodes
    ensures b in Next(w, e).nodes[a].peers <==>
              || (b in w.nodes[a].peers && e != Lose(a, b))
              || (e.Finish? && e.call in w.calls && e.call.Answered? && e.call.caller == a && e.call.callee == b
                  && e.call.status.network == e.call.resp.network
                  && !e.call.status.temporaryDial && !e.call.resp.temporaryDial)
  {
    hide InFlightAfter;
  }

  /** A call is in flight once from its beginning to its end: an answer replaces it, and only its end or
      its failure takes it away. */
  lemma InFlight(w: World, e: Event)
    ensures |Next(w, e).calls| == |w.calls|
              + (if e.Begin? && e.caller in w.nodes && e.callee in w.nodes then 1 else 0)
              - (if (e.Fail? && e.call in w.calls)
                    || (e.Finish? && e.call in w.calls && e.call.Answered? && e.call.caller in w.nodes) then 1 else 0)
    ensures forall call | call in w.calls && !e.Begin? && (e.Mark? || e.Unmark? || e.Lose? || e.call != call) ::
              Next(w, e).calls[call] >= w.calls[call]
  {
    hide NodesAfter, ConstructStatus, Hello;
  }

  // ---- agreement ----

  /** Neither node's network nor its mark of the other changes. */
  ghost predicate SteadyFor(w: World, w': World, a: NodeId, b: NodeId) {
    && a in w.nodes && b in w.nodes && a in w'.nodes && b in w'.nodes
    && w'.nodes[a].network == w.nodes[a].network && w'.nodes[b].network == w.nodes[b].network
    && (b in w'.nodes[a].temporary <==> b in w.nodes[a].temporary)
    && (a in w'.nodes[b].temporary <==> a in w.nodes[b].temporary)
  }

  /** What a's call of b concludes when its status is made in one world and the answer in another. */
  function CallOutcome(begun: World, answered: World, a: NodeId, b: NodeId): Outcome
    requires a in begun.nodes && b in answered.nodes
  {
    var status := ConstructStatus(begun.nodes, a, b);
    Conclude(status, Hello(answered.nodes, b, status))
  }

  /** A call records the peer exactly when the networks agree and neither side marks the other; it is an
      error exactly when the networks differ, so temporary otherwise. */
  lemma RecordedIff(begun: World, answered: World, a: NodeId, b: NodeId)
    requires SteadyFor(begun, answered, a, b)
    ensures CallOutcome(begun, answered, a, b) == Recorded <==>
            && begun.nodes[a].network == begun.nodes[b].network
            && b !in begun.nodes[a].temporary && a !in begun.nodes[b].temporary
    ensures CallOutcome(begun, answered, a, b) == InvalidNetworkID <==>
              begun.nodes[a].network != begun.nodes[b].network
  {
  }

  /** So while the marks do not change, a records b exactly when b records a, whenever the two calls
      are made and however they interleave with others. */
  lemma Agreement(w: World, begunA: World, answeredA: World, begunB: World, answeredB: World, a: NodeId, b: NodeId)
    requires SteadyFor(w, begunA, a, b) && SteadyFor(w, answeredA, a, b)
    requires SteadyFor(w, begunB, a, b) && SteadyFor(w, answeredB, a, b)
    ensures CallOutcome(begunA, answeredA, a, b) == Recorded <==> CallOutcome(begunB, answeredB, b, a) == Recorded
  {
    RecordedIff(begunA, answeredA, a, b);
    RecordedIff(begunB, answeredB, b, a);
  }

  /** And the call does what its outcome says: the three steps, with anything in between that leaves
      the marks alone, put b into a's table exactly when the outcome is `Recorded`. */
  lemma CallRecords(w: World, mid: World, last: World, a: NodeId, b: NodeId)
    requires a in w.nodes && b in mid.nodes && a in last.nodes && b !in last.nodes[a].peers
    requires Sent(a, b, ConstructStatus(w.nodes, a, b)) in mid.calls
    requires var s := ConstructStatus(w.nodes, a, b); Answered(a, b, s, Hello(mid.nodes, b, s)) in last.calls
    ensures var s := ConstructStatus(w.nodes, a, b);
            var answered := Answered(a, b, s, Hello(mid.nodes, b, s));
            && (b in w.nodes ==> Sent(a, b, s) in Next(w, Begin(a, b)).calls)
            && answered in Next(mid, Answer(Sent(a, b, s))).calls
            && (b in Next(last, Finish(answered)).nodes[a].peers <==> CallOutcome(w, mid, a, b) == Recorded)
  {
  }

  // ---- agreement over runs ----

  /** The step is about the two nodes' marks of each other, or makes one lose the other. */
  predicate Disturbs(e: Event, a: NodeId, b: NodeId) {
    (e.Mark? || e.Unmark? || e.Lose?) && ((e.node == a && e.peer == b) || (e.node == b && e.peer == a))
  }

  predicate Compatible(w: World, a: NodeId, b: NodeId) {
    && a in w.nodes && b in w.nodes
    && w.nodes[a].network == w.nodes[b].network
    && b !in w.nodes[a].temporary && a !in w.nodes[b].temporary
  }

  /** A status in flight tells whether its maker marks the other side. */
  ghost predicate Telling(w: World, id: NodeId, other: NodeId, s: Status) {
    Truthful(w, id, s) && (s.temporaryDial <==> other in w.nodes[id].temporary)
  }

  predicate Between(call: Call, a: NodeId, b: NodeId) {
    call.caller == a && call.callee == b
  }

  /** a's calls of b tell the truth, and b is recorded only when the two are compatible. */
  ghost predicate Sound(w: World, a: NodeId, b: NodeId) {
    && a in w.nodes && b in w.nodes
    && (forall call | call in w.calls && Between(call, a, b) ::
          Telling(w, a, b, call.status) && (call.Answered? ==> Telling(w, b, a, call.resp)))
    && (b in w.nodes[a].peers ==> Compatible(w, a, b))
  }

  lemma MarksStay(w: World, e: Event, a: NodeId, b: NodeId)
    requires a in w.nodes && b in w.nodes && !Disturbs(e, a, b)
    ensures var w' := Next(w, e);
            && a in w'.nodes && b in w'.nodes
            && (b in w'.nodes[a].temporary <==> b in w.nodes[a].temporary)
            && (b in w.nodes[a].peers ==> b in w'.nodes[a].peers)
  {
    hide InFlightAfter, Conclude;
  }

  lemma CompatibleStays(w: World, e: Event, a: NodeId, b: NodeId)
    requires a in w.nodes && b in w.nodes && !Disturbs(e, a, b)
    ensures Compatible(Next(w, e), a, b) == Compatible(w, a, b)
  {
    hide Next;
    NetworksStay(w, e);
    MarksStay(w, e, a, b);
    MarksStay(w, e, b, a);
  }

  /** This step ends an answered call of a to b. */
  predicate Ends(w: World, e: Event, a: NodeId, b: NodeId) {
    e.Finish? && e.call in w.calls && e.call.Answered? && Between(e.call, a, b)
  }

  lemma EndsRecord(w: World, e: Event, a: NodeId, b: NodeId)
    requires Sound(w, a, b) && Ends(w, e, a, b) && Compatible(w, a, b)
    ensures b in Next(w, e).nodes[a].peers
  {
  }

  lemma NextKeepsSound(w: World, e: Event, a: NodeId, b: NodeId)
    requires Sound(w, a, b) && !Disturbs(e, a, b)
    ensures Sound(Next(w, e), a, b)
  {
    var w' := Next(w, e);
    NetworksStay(w, e);
    MarksStay(w, e, a, b);
    MarksStay(w, e, b, a);
    hide Next;
    if b in w'.nodes[a].peers {
      PeersAfter(w, e, a, b);
    }
    forall call | call in w'.calls && Between(call, a, b)
      ensures Telling(w', a, b, call.status) && (call.Answered? ==> Telling(w', b, a, call.resp))
    {
      CallsAfter(w, e, call);
    }
  }

  /** Somewhere in the run an answered call of a to b ends. */
  predicate CallEnds(w: World, es: seq<Event>, a: NodeId, b: NodeId)
    decreases |es|
  {
    es != [] && (Ends(w, es[0], a, b) || CallEnds(Next(w, es[0]), es[1..], a, b))
  }

  lemma {:induction false} RecordedIffCompatible(w: World, es: seq<Event>, a: NodeId, b: NodeId)
    requires Sound(w, a, b) && forall e | e in es :: !Disturbs(e, a, b)
    ensures var w' := Run(w, es);
            && Sound(w', a, b) && Compatible(w', a, b) == Compatible(w, a, b)
            && (b in w.nodes[a].peers || (CallEnds(w, es, a, b) && Compatible(w, a, b)) ==> b in w'.nodes[a].peers)
    decreases |es|
  {
    hide Compatible, Next;
    if es != [] {
      assert es[0] in es;
      NextKeepsSound(w, es[0], a, b);
      MarksStay(w, es[0], a, b);
      CompatibleStays(w, es[0], a, b);
      if Ends(w, es[0], a, b) && Compatible(w, a, b) {
        EndsRecord(w, es[0], a, b);
      }
      RecordedIffCompatible(Next(w, es[0]), es[1..], a, b);
    }
  }

  /** In any run, whatever else goes on among however many nodes: two nodes that did not know each other
      and do not change their marks of each other agree, once each has had its answered call of the
      other: one records the other exactly when it is recorded by it. */
  lemma EveryRunAgrees(w: World, es: seq<Event>, a: NodeId, b: NodeId)
    requires a in w.nodes && b in w.nodes && b !in w.nodes[a].peers && a !in w.nodes[b].peers
    requires forall call | call in w.calls :: !Between(call, a, b) && !Between(call, b, a)
    requires forall e | e in es :: !Disturbs(e, a, b)
    requires CallEnds(w, es, a, b) && CallEnds(w, es, b, a)
    ensures var w' := Run(w, es);
            && a in w'.nodes && b in w'.nodes
            && (b in w'.nodes[a].peers <==> a in w'.nodes[b].peers)
            && (b in w'.nodes[a].peers <==>
                  && w.nodes[a].network == w.nodes[b].network
                  && b !in w.nodes[a].temporary && a !in w.nodes[b].temporary)
  {
    RecordedIffCompatible(w, es, a, b);
    RecordedIffCompatible(w, es, b, a);
  }
}

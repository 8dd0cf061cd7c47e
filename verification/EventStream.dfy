/**
 The lossy application event stream (core/application/subscription.go).

 Every subscriber has a channel with room for one event. A push offers its event to each channel
 and does not wait: a channel that is full misses it. Subscriptions are never taken off the list.
 */
module EventStream {
  import opened NodeQueries
  import opened Subsequences

  datatype Event = Event(newApp: seq<Application>, kind: int, source: string)

  /** What a non-blocking send leaves in a channel of capacity one. */
  function Offered(buf: seq<Event>, e: Event): seq<Event> {
    if buf == [] then [e] else buf
  }

  function Pushed(bufs: seq<seq<Event>>, e: Event): (r: seq<seq<Event>>)
    ensures |r| == |bufs|
  {
    seq(|bufs|, i requires 0 <= i < |bufs| => Offered(bufs[i], e))
  }

  // ---- runs ----

  /** A subscriber's channel, what it has received, and the length of the log when it subscribed. */
  datatype Sub = Sub(buf: seq<Event>, received: seq<Event>, since: nat, missed: bool)

  datatype World = World(subs: seq<Sub>, log: seq<Event>)

  datatype Op = Subscribe | Push(e: Event) | Receive(i: nat)

  function Offer(sub: Sub, e: Event): Sub {
    sub.(buf := Offered(sub.buf, e), missed := sub.missed || sub.buf != [])
  }

  function Step(w: World, op: Op): World {
    match op
    case Subscribe => w.(subs := w.subs + [Sub([], [], |w.log|, false)])
    case Push(e) =>
      World(seq(|w.subs|, i requires 0 <= i < |w.subs| => Offer(w.subs[i], e)), w.log + [e])
    case Receive(i) =>
      if i >= |w.subs| || w.subs[i].buf == [] then w
      else
        var sub := w.subs[i];
        w.(subs := w.subs[i := sub.(buf := sub.buf[1..], received := sub.received + [sub.buf[0]])])
  }

  function Run(w: World, ops: seq<Op>): World
    decreases |ops|
  {
    if ops == [] then w else Run(Step(w, ops[0]), ops[1..])
  }

  ghost predicate Faithful(sub: Sub, log: seq<Event>) {
    && |sub.buf| <= 1
    && sub.since <= |log|
    && Subseq(sub.received + sub.buf, log[sub.since..])
    && (sub.missed <==> sub.received + sub.buf != log[sub.since..])
  }

  ghost predicate Inv(w: World) {
    forall i | 0 <= i < |w.subs| :: Faithful(w.subs[i], w.log)
  }

  /** A subsequence that is not the whole is shorter. */
  lemma {:induction false} SubseqShorter<T>(a: seq<T>, b: seq<T>)
    requires Subseq(a, b)
    ensures |a| <= |b|
    ensures |a| == |b| ==> a == b
    decreases |b|
  {
    if a == [] {
    } else if a[|a| - 1] == b[|b| - 1] && Subseq(a[..|a| - 1], b[..|b| - 1]) {
      SubseqShorter(a[..|a| - 1], b[..|b| - 1]);
      assert a == a[..|a| - 1] + [a[|a| - 1]] && b == b[..|b| - 1] + [b[|b| - 1]];
    } else {
      SubseqShorter(a, b[..|b| - 1]);
    }
  }

  lemma OfferKeeps(sub: Sub, log: seq<Event>, e: Event)
    requires Faithful(sub, log)
    ensures Faithful(Offer(sub, e), log + [e])
  {
    hide Subseq;
    var had := sub.received + sub.buf;
    var due := log[sub.since..];
    assert (log + [e])[sub.since..] == due + [e];
    SubseqKeep(had, due, e);
    SubseqShorter(had, due);
    if sub.buf == [] {
      assert had == sub.received && Offer(sub, e).received + [e] == had + [e];
      assert had == (had + [e])[..|had|] && due == (due + [e])[..|due|];
    } else {
      assert |had| < |due + [e]|;
    }
  }

  lemma ReceiveKeeps(sub: Sub, log: seq<Event>)
    requires Faithful(sub, log) && sub.buf != []
    ensures Faithful(sub.(buf := sub.buf[1..], received := sub.received + [sub.buf[0]]), log)
  {
    hide Subseq;
    assert sub.received + [sub.buf[0]] + sub.buf[1..] == sub.received + sub.buf;
  }

  lemma StepKeeps(w: World, op: Op)
    requires Inv(w)
    ensures Inv(Step(w, op))
  {
    hide Faithful;
    var w' := Step(w, op);
    forall i | 0 <= i < |w'.subs| ensures Faithful(w'.subs[i], w'.log) {
      match op
      case Subscribe => if i == |w.subs| { SubscribedIsFaithful(w); }
      case Push(e) => OfferKeeps(w.subs[i], w.log, e);
      case Receive(j) => if i == j && w.subs[i].buf != [] { ReceiveKeeps(w.subs[i], w.log); }
    }
  }

  lemma SubscribedIsFaithful(w: World)
    ensures Faithful(Sub([], [], |w.log|, false), w.log)
  {
  }

  /** In every run each subscriber has received, followed by what waits in its channel, an ordered
      part of the pushes since its subscription; all of them exactly when no push found it full. */
  lemma {:induction false} EveryRunFaithful(w: World, ops: seq<Op>)
    requires Inv(w)
    ensures Inv(Run(w, ops))
    decreases |ops|
  {
    if ops != [] {
      StepKeeps(w, ops[0]);
      EveryRunFaithful(Step(w, ops[0]), ops[1..]);
    }
  }

  /** The same from the start, for each subscriber: `at` says which push each event is. */
  lemma SubscribersInOrder(ops: seq<Op>, i: nat) returns (at: seq<nat>)
    requires i < |Run(World([], []), ops).subs|
    ensures var w := Run(World([], []), ops);
            var sub := w.subs[i];
            var had := sub.received + sub.buf;
            && |sub.buf| <= 1 && sub.since <= |w.log| && |at| == |had|
            && (forall j | 0 <= j < |at| :: sub.since + at[j] < |w.log| && w.log[sub.since + at[j]] == had[j])
            && (forall j, l | 0 <= j < l < |at| :: at[j] < at[l])
            && (!sub.missed <==> had == w.log[sub.since..])
  {
    hide Subseq;
    EveryRunFaithful(World([], []), ops);
    var w := Run(World([], []), ops);
    hide Run;
    at := PlacesOf(w.subs[i], w.log);
  }

  lemma PlacesOf(sub: Sub, log: seq<Event>) returns (at: seq<nat>)
    requires Faithful(sub, log)
    ensures var had := sub.received + sub.buf;
            && |at| == |had|
            && (forall j | 0 <= j < |at| :: sub.since + at[j] < |log| && log[sub.since + at[j]] == had[j])
            && (forall j, l | 0 <= j < l < |at| :: at[j] < at[l])
  {
    hide Subseq;
    var due := log[sub.since..];
    at := SubseqIndices(sub.received + sub.buf, due);
    forall j | 0 <= j < |at|
      ensures sub.since + at[j] < |log| && log[sub.since + at[j]] == (sub.received + sub.buf)[j]
    {
      assert due[at[j]] == log[sub.since + at[j]];
    }
  }

  /** A push that finds the channel empty is kept: it is the next event received. */
  lemma PushToEmptyIsNext(w: World, e: Event, i: nat)
    requires i < |w.subs| && w.subs[i].buf == []
    ensures var w' := Step(Step(w, Push(e)), Receive(i));
            && |w'.subs| == |w.subs|
            && w'.subs[i].received == w.subs[i].received + [e]
            && w'.subs[i].missed == w.subs[i].missed
  {
  }

  /** A push that finds the channel full is lost: the older event stays. */
  lemma PushToFullIsLost(w: World, e: Event, i: nat)
    requires i < |w.subs| && w.subs[i].buf != []
    ensures var w' := Step(w, Push(e));
            && |w'.subs| == |w.subs|
            && w'.subs[i].buf == w.subs[i].buf && w'.subs[i].received == w.subs[i].received
            && w'.subs[i].missed
  {
  }

  /** The events that are pushed in a run, in order. */
  ghost function PushedIn(ops: seq<Op>): seq<Event>
    decreases |ops|
  {
    if ops == [] then [] else (if ops[0].Push? then [ops[0].e] else []) + PushedIn(ops[1..])
  }

  ghost function Subscriptions(ops: seq<Op>): nat
    decreases |ops|
  {
    if ops == [] then 0 else (if ops[0].Subscribe? then 1 else 0) + Subscriptions(ops[1..])
  }

  lemma LogAfter(w: World, op: Op)
    ensures var w' := Step(w, op);
            && w'.log == w.log + (if op.Push? then [op.e] else [])
            && |w'.subs| == |w.subs| + (if op.Subscribe? then 1 else 0)
            && forall i | 0 <= i < |w.subs| :: w'.subs[i].since == w.subs[i].since
  {
    assert w.log + [] == w.log;
  }

  lemma {:induction false} LogIsPushes(w: World, ops: seq<Op>)
    ensures var w' := Run(w, ops);
            && w'.log == w.log + PushedIn(ops) && |w'.subs| == |w.subs| + Subscriptions(ops)
            && forall i | 0 <= i < |w.subs| :: w'.subs[i].since == w.subs[i].since
    decreases |ops|
  {
    if ops == [] {
      assert w.log + [] == w.log;
    } else {
      hide Step;
      var w1, p, r := Step(w, ops[0]), if ops[0].Push? then [ops[0].e] else [], PushedIn(ops[1..]);
      LogAfter(w, ops[0]);
      LogIsPushes(w1, ops[1..]);
      assert Run(w, ops) == Run(w1, ops[1..]) && PushedIn(ops) == p + r;
      assert Subscriptions(ops) == (if ops[0].Subscribe? then 1 else 0) + Subscriptions(ops[1..]);
      hide Run, PushedIn, Subscriptions;
      assert (w.log + p) + r == w.log + (p + r);
    }
  }

  /** A subscriber is owed exactly the pushes behind its own subscription. */
  lemma OwedSince(before: seq<Op>, after: seq<Op>)
    ensures var w := Run(World([], []), before + [Subscribe] + after);
            var i := Subscriptions(before);
            && i < |w.subs| && w.subs[i].since <= |w.log|
            && w.log[w.subs[i].since..] == PushedIn(after)
            && w.log == PushedIn(before) + PushedIn(after)
  {
    var w1 := Run(World([], []), before);
    var w2 := Step(w1, Subscribe);
    RunAround(World([], []), before, Subscribe, after);
    LogIsPushes(World([], []), before);
    LogIsPushes(w2, after);
    hide Run, PushedIn, Subscriptions;
    assert w1.log == PushedIn(before);
    assert w2.log == w1.log && w2.subs[|w1.subs|].since == |w1.log|;
    assert (w1.log + PushedIn(after))[|w1.log|..] == PushedIn(after);
  }

  lemma RunAround(w: World, before: seq<Op>, op: Op, after: seq<Op>)
    ensures Run(w, before + [op] + after) == Run(Step(Run(w, before), op), after)
  {
    assert before + [op] + after == before + ([op] + after);
    RunSum(w, before, [op] + after);
    hide Step;
    assert ([op] + after)[1..] == after;
  }

  lemma {:induction false} RunSum(w: World, a: seq<Op>, b: seq<Op>)
    ensures Run(w, a + b) == Run(Run(w, a), b)
    decreases |a|
  {
    if a == [] {
      assert a + b == b;
    } else {
      hide Step;
      assert (a + b)[1..] == a[1..] + b;
      RunSum(Step(w, a[0]), a[1..], b);
    }
  }

  function Bufs(w: World): seq<seq<Event>> {
    seq(|w.subs|, i requires 0 <= i < |w.subs| => w.subs[i].buf)
  }

  /** A push of the run does to the channels what `Pushed` says. */
  lemma PushIsPushed(w: World, e: Event)
    ensures Bufs(Step(w, Push(e))) == Pushed(Bufs(w), e)
  {
    assert forall i | 0 <= i < |w.subs| :: Bufs(w)[i] == w.subs[i].buf;
  }

  // ---- the stream updated in place ----

  class Channel {
    var buf: seq<Event>

    constructor ()
      ensures buf == []
    {
      buf := [];
    }

    method Offer(e: Event)
      modifies this
      ensures buf == Offered(old(buf), e)
    {
      if buf == [] {
        buf := [e];
      }
    }

    /** `GetEvent` when an event is there. */
    method Receive() returns (e: Event)
      requires buf != []
      modifies this
      ensures e == old(buf)[0] && buf == old(buf)[1..]
    {
      e := buf[0];
      buf := buf[1..];
    }
  }

  class Stream {
    var updateCh: seq<Channel>

    constructor ()
      ensures Valid() && updateCh == []
    {
      updateCh := [];
    }

    ghost predicate Valid()
      reads this
    {
      forall i, j | 0 <= i < j < |updateCh| :: updateCh[i] != updateCh[j]
    }

    ghost function Buffers(): (b: seq<seq<Event>>)
      reads this, updateCh
      ensures |b| == |updateCh|
    {
      seq(|updateCh|, i requires 0 <= i < |updateCh| reads this, updateCh => updateCh[i].buf)
    }

    method Subscribe() returns (ch: Channel)
      requires Valid()
      modifies this
      ensures Valid() && fresh(ch) && updateCh == old(updateCh) + [ch]
      ensures Buffers() == old(Buffers()) + [[]]
    {
      ch := new Channel();
      updateCh := updateCh + [ch];
    }

    method Push(e: Event)
      requires Valid()
      modifies updateCh
      ensures Buffers() == Pushed(old(Buffers()), e)
    {
      var i := 0;
      while i < |updateCh|
        invariant 0 <= i <= |updateCh|
        invariant forall k | 0 <= k < |updateCh| ::
          updateCh[k].buf == if k < i then Offered(old(updateCh[k].buf), e) else old(updateCh[k].buf)
      {
        updateCh[i].Offer(e);
        i := i + 1;
      }
    }
  }
}

/**
 The filter manager updated in place (core/jsonrpc/web3/node_filter_manager.go).

 Each method is one critical section and computes the function of `FilterSpec` that it names in
 its postcondition; `FilterRuns` reasons about runs of those functions. The clock, fresh UUIDs
 and the outcome of socket writes are parameters.
 */
module FilterManager {
  import opened ContainerHeap
  import opened IndexedHeap
  import opened NodeQueries
  import FilterSpec
  import FilterTimeout
  import FilterRuns

  type Id = FilterSpec.Id

  /** `filterBase` is the heap item: its payload is the id, its key the expiry. */
  class NodeFilter {
    const base: Item<Id>
    const ws: bool
    const query: NodeQuery
    var msgs: seq<Application>

    constructor (base: Item<Id>, ws: bool, query: NodeQuery)
      ensures this.base == base && this.ws == ws && this.query == query && msgs == []
    {
      this.base := base;
      this.ws := ws;
      this.query := query;
      msgs := [];
    }

    /** `takeNodeMsgUpdates`. */
    method TakeUpdates() returns (taken: seq<Application>)
      modifies `msgs
      ensures taken == old(msgs) && msgs == []
    {
      taken := msgs;
      msgs := [];
    }
  }

  class NodeFilterManager {
    const timeout: int
    var filters: map<Id, NodeFilter>
    const timeouts: MinHeap<Id>

    /** Every filter object ever made, by id: a reader may hold one that is no longer installed. */
    ghost var known: map<Id, NodeFilter>

    ghost function Bases(): set<Item<Id>>
      reads this
    {
      set id | id in known :: known[id].base
    }

    ghost predicate Valid()
      reads this, timeouts, Bases()
    {
      && timeouts.Members() <= Bases()
      && timeouts.Valid()
      && (forall id | id in known :: known[id].base.payload == id)
      && (forall id | id in known && known[id].base !in timeouts.Members() ::
            known[id].base.index == NO_INDEX_IN_HEAP)
      && filters.Keys <= known.Keys && (forall id | id in filters :: filters[id] == known[id])
    }

    ghost predicate Known(f: NodeFilter)
      reads this
    {
      f.base.payload in known && known[f.base.payload] == f
    }

    ghost function Heap(): seq<Entry<Id>>
      requires Valid()
      reads this, timeouts, Bases()
    {
      timeouts.View()
    }

    ghost function Abs(): FilterSpec.State
      requires Valid()
      reads this, timeouts, Bases(), known.Values
    {
      FilterSpec.State(map id | id in filters :: AbsFilter(filters[id]), Heap())
    }

    ghost function AbsFilter(f: NodeFilter): FilterSpec.Filter
      reads f`msgs, f.base`key
    {
      FilterSpec.Filter(f.ws, f.query, f.base.key, f.msgs)
    }

    constructor (timeout: int)
      ensures Valid() && fresh(timeouts) && known == map[] && this.timeout == timeout
      ensures Abs() == FilterSpec.State(map[], [])
    {
      this.timeout := timeout;
      filters := map[];
      timeouts := new MinHeap();
      known := map[];
    }

    /** An item's back-pointer is where the specification finds it. */
    lemma IndexIsPlace(f: NodeFilter)
      requires Valid() && Known(f)
      ensures Distinct(Heap())
      ensures f.base.index == IndexOf(Heap(), f.base.payload)
      ensures f.base in timeouts.Members() <==> f.base.index != NO_INDEX_IN_HEAP
    {
      var h := Heap();
      forall i | 0 <= i < |h| ensures timeouts.elems[i] in Bases() && h[i].item == timeouts.elems[i].payload {
        assert timeouts.elems[i] in timeouts.Members();
      }
      assert Distinct(h) by {
        forall i, j | 0 <= i < j < |h| ensures h[i].item != h[j].item {
          assert timeouts.elems[i] != timeouts.elems[j];
        }
      }
      if f.base in timeouts.Members() {
        var i :| 0 <= i < |h| && timeouts.elems[i] == f.base;
        PlaceIsIndex(h, i);
      } else {
        forall e | e in h ensures e.item != f.base.payload {
          var i :| 0 <= i < |h| && h[i] == e;
          assert timeouts.elems[i] in Bases();
        }
      }
    }

    /** `timeHeapImpl.removeFilter`. */
    method RemoveTimeout(f: NodeFilter) returns (removed: bool)
      requires Valid() && Known(f)
      modifies timeouts`elems, Bases()`index
      ensures Valid() && f.base !in timeouts.Members()
      ensures Abs() == old(Abs()).(timeouts := RemoveItem(old(Heap()), f.base.payload))
      ensures removed <==> IndexOf(old(Heap()), f.base.payload) != -1
    {
      hide RemoveAt, IndexOf;
      IndexIsPlace(f);
      removed := f.base.index != NO_INDEX_IN_HEAP;
      if removed {
        var x := timeouts.Remove(f.base.index);
        FiltersStay();
      }
    }

    twostate lemma FiltersStay()
      requires old(Valid()) && Valid() && known == old(known) && filters == old(filters)
      requires unchanged(Bases()`key) && unchanged(known.Values`msgs)
      ensures Abs().filters == old(Abs()).filters
    {
      hide Valid;
      FiltersOf();
      assert old(Abs()).filters.Keys == filters.Keys;
      forall k | k in filters ensures AbsFilter(filters[k]) == old(AbsFilter(filters[k])) {
        FilterOf(k);
      }
    }

    /** `addFilterTimeout`: a new expiry, then into the heap. */
    method AddTimeout(f: NodeFilter, now: int)
      requires Valid() && Known(f) && f.base !in timeouts.Members()
      modifies timeouts`elems, Bases()`index, f.base`key
      ensures Valid()
      ensures Abs() == FilterSpec.State(Expiring(old(Abs()).filters, f.base.payload, now + timeout),
                                        Push(old(Heap()), Entry(f.base.payload, now + timeout)))
    {
      hide Push, Expiring;
      f.base.key := now + timeout;
      assert timeouts.View() == old(timeouts.View());
      timeouts.Push(f.base);
      OtherKeysStay(f);
    }

    twostate lemma OtherKeysStay(f: NodeFilter)
      requires old(Valid()) && Valid() && old(Known(f)) && Known(f)
      requires known == old(known) && filters == old(filters)
      requires forall id | id in known && known[id] != f :: known[id].base.key == old(known[id].base.key)
      requires forall id | id in known :: known[id].msgs == old(known[id].msgs)
      ensures Abs().filters == Expiring(old(Abs()).filters, f.base.payload, f.base.key)
    {
    }

    /** `refreshFilterTimeout`: also for a filter that has been uninstalled meanwhile. */
    method RefreshFilterTimeout(f: NodeFilter, now: int)
      requires Valid() && Known(f)
      modifies timeouts`elems, Bases()`index, f.base`key
      ensures Valid()
      ensures Abs() == FilterSpec.RefreshTimeout(old(Abs()), f.base.payload, now + timeout)
    {
      hide Push, RemoveItem, IndexOf, Valid;
      var _ := RemoveTimeout(f);
      AddTimeout(f, now);
    }

    /** `NewNodeFilter` and `addFilter`; `signaled` tells whether the worker is notified. */
    method NewNodeFilter(id: Id, ws: bool, query: NodeQuery, now: int) returns (f: NodeFilter, signaled: bool)
      requires Valid() && id !in known
      modifies `filters, `known, timeouts`elems, Bases()`index
      ensures Valid() && fresh(f) && known == old(known)[id := f] && f.base.payload == id
      ensures Abs() == FilterSpec.AddFilter(old(Abs()), id, ws, query, now + timeout)
      ensures signaled == !ws
    {
      hide Push, Valid, Bases, AbsFilter, FilterSpec.AddFilter, Expiring;
      AddFilterInTwo(Abs(), id, ws, query, now + timeout);
      f := Register(id, ws, query);
      if !ws {
        AddTimeout(f, now);
      }
      signaled := !ws;
    }

    /** A new filter object in the table, not queued. */
    method Register(id: Id, ws: bool, query: NodeQuery) returns (f: NodeFilter)
      requires Valid() && id !in known
      modifies `filters, `known
      ensures Valid() && fresh(f) && fresh(f.base) && known == old(known)[id := f] && f.base.payload == id
      ensures f.base !in timeouts.Members() && Bases() == old(Bases()) + {f.base}
      ensures Abs() == old(Abs()).(filters := old(Abs()).filters[id := FilterSpec.Filter(ws, query, 0, [])])
    {
      var base := new Item(id, 0, NO_INDEX_IN_HEAP);
      f := new NodeFilter(base, ws, query);
      filters := filters[id := f];
      known := known[id := f];
      BasesGrow(f);
      Registered(f);
    }

    twostate lemma Registered(new f: NodeFilter)
      requires old(Valid()) && f.base.payload !in old(known) && unchanged(timeouts)
      requires known == old(known)[f.base.payload := f] && filters == old(filters)[f.base.payload := f]
      requires Bases() == old(Bases()) + {f.base} && f.base !in old(Bases())
      requires unchanged(old(Bases())) && unchanged(old(known.Values))
      requires f.base.index == NO_INDEX_IN_HEAP && f.base.key == 0 && f.msgs == []
      ensures Valid() && f.base !in timeouts.Members()
      ensures Abs() == old(Abs()).(filters :=
        old(Abs()).filters[f.base.payload := FilterSpec.Filter(f.ws, f.query, 0, [])])
    {
      forall k | k in old(known) ensures known[k] == old(known)[k] && k != f.base.payload {}
    }

    twostate lemma BasesGrow(new f: NodeFilter)
      requires f.base.payload !in old(known) && known == old(known)[f.base.payload := f]
      ensures Bases() == old(Bases()) + {f.base}
    {
      forall k | k in old(known) ensures old(known)[k].base in Bases() {
        assert known[k].base == old(known)[k].base;
      }
      assert known[f.base.payload].base == f.base;
    }

    method RemoveFilterByID(id: Id) returns (found: bool, signaled: bool)
      requires Valid()
      modifies `filters, timeouts`elems, Bases()`index
      ensures Valid()
      ensures Abs() == FilterSpec.RemoveFilterByID(old(Abs()), id)
      ensures found == (id in old(filters)) && signaled == FilterSpec.RemoveSignals(old(Abs()), id)
    {
      hide RemoveItem, IndexOf, Valid;
      FiltersOf();
      if id !in filters {
        return false, false;
      }
      FilterOf(id);
      var f := filters[id];
      filters := filters - {id};
      Unlisted(id);
      signaled := RemoveTimeout(f);
      found := true;
    }

    twostate lemma Unlisted(id: Id)
      requires old(Valid()) && known == old(known) && filters == old(filters) - {id}
      requires unchanged(timeouts) && unchanged(Bases()) && unchanged(known.Values)
      ensures Valid() && Abs() == old(Abs()).(filters := old(Abs()).filters - {id})
    {
    }

    /** The read-locked half of a poll: hands over the stored messages and the filter they came from. */
    method GetFilterAndChanges(id: Id) returns (f: NodeFilter?, res: FilterSpec.Result<seq<Application>>)
      requires Valid()
      modifies known.Values`msgs
      ensures Valid()
      ensures res == FilterSpec.Changes(old(Abs()), id) && Abs() == FilterSpec.TakeChanges(old(Abs()), id)
      ensures if res.Ok? then f != null && Known(f) && f.base.payload == id && !f.ws else f == null
    {
      if id !in filters {
        return null, FilterSpec.Err(FilterSpec.FilterNotFound);
      }
      if filters[id].ws {
        return null, FilterSpec.Err(FilterSpec.WsFilterDoesNotSupportGetChanges);
      }
      f := filters[id];
      FilterOf(id);
      var taken := TakeFrom(id);
      res := FilterSpec.Ok(taken);
    }

    /** The whole poll, when nothing comes between its halves. */
    method GetFilterChanges(id: Id, now: int) returns (res: FilterSpec.Result<seq<Application>>)
      requires Valid()
      modifies known.Values`msgs, timeouts`elems, Bases()`index, Bases()`key
      ensures Valid() && res == FilterSpec.Changes(old(Abs()), id)
      ensures Abs() == if res.Err? then old(Abs())
                       else FilterSpec.RefreshTimeout(FilterSpec.TakeChanges(old(Abs()), id), id, now + timeout)
    {
      var f: NodeFilter?;
      f, res := GetFilterAndChanges(id);
      if res.Ok? {
        RefreshFilterTimeout(f, now);
      }
    }

    method NextTimeoutFilter() returns (id: Id, expires: int)
      requires Valid()
      ensures (id, expires) == FilterTimeout.NextTimeout(Abs())
    {
      if |timeouts.elems| == 0 {
        return "", 0;
      }
      id, expires := timeouts.elems[0].payload, timeouts.elems[0].key;
    }

    /** Nothing changed but the messages of one filter. */
    twostate lemma OnlyMessagesOf(id: Id)
      requires old(Valid()) && id in filters
      requires unchanged(this) && unchanged(timeouts) && unchanged(Bases())
      requires forall g: NodeFilter | g in known.Values && g != filters[id] :: g.msgs == old(g.msgs)
      ensures Valid()
      ensures id in old(Abs()).filters
      ensures Abs() == WithFilter(old(Abs()), id, old(Abs()).filters[id].(msgs := filters[id].msgs))
    {
      hide Valid;
      FilterOf(id);
      forall k | k in filters && k != id ensures AbsFilter(filters[k]) == old(AbsFilter(filters[k])) {
        FilterOf(k);
      }
    }

    /** `appendNodeLogToFilters`, over the filters in any order. */
    method AppendNodeLogToFilters(app: Application)
      requires Valid()
      modifies known.Values`msgs
      ensures Valid() && Abs() == FilterSpec.AppendToFilters(old(Abs()), app)
    {
      hide Valid, Abs, AbsFilter, Bases, Merged, FilterSpec.AppendToFilters;
      ghost var s := Abs();
      ghost var t := FilterSpec.AppendToFilters(s, app);
      var todo := filters.Keys;
      assert s.filters.Keys == filters.Keys by { FiltersOf(); }
      AppendToFiltersAt(s, app);
      MergedAll(s, t);
      while todo != {}
        invariant todo <= filters.Keys && Valid() && Abs() == Merged(s, t, todo)
        decreases todo
      {
        var id :| id in todo;
        assert filters[id] in known.Values by { FilterOf(id); }
        MergedStep(s, t, todo, id);
        AppendLog(id, app);
        todo := todo - {id};
      }
    }

    /** One filter's turn: `appendLog` if its query matches. */
    method AppendLog(id: Id, app: Application)
      requires Valid() && id in filters
      modifies (filters[id] as NodeFilter)`msgs
      ensures Valid() && id in old(Abs()).filters
      ensures Abs() == WithFilter(old(Abs()), id, FilterSpec.Stored(old(Abs()).filters[id], app))
    {
      var f := filters[id];
      FilterOf(id);
      if Match(f.query, app) {
        f.msgs := f.msgs + [app];
      }
      OnlyMessagesOf(id);
    }

    /** One filter's turn: its messages are taken. */
    method TakeFrom(id: Id) returns (taken: seq<Application>)
      requires Valid() && id in filters
      modifies (filters[id] as NodeFilter)`msgs
      ensures Valid() && id in old(Abs()).filters && taken == old(Abs()).filters[id].msgs
      ensures Abs() == WithFilter(old(Abs()), id, old(Abs()).filters[id].(msgs := []))
    {
      FilterOf(id);
      taken := filters[id].TakeUpdates();
      OnlyMessagesOf(id);
    }

    lemma FiltersOf()
      requires Valid()
      ensures Abs().filters.Keys == filters.Keys
    {
    }

    lemma FilterOf(id: Id)
      requires Valid() && id in filters
      ensures id in known && known[id] == filters[id] && filters[id].base.payload == id
      ensures id in Abs().filters && Abs().filters[id] == AbsFilter(filters[id])
      ensures Abs().filters[id].hasWs == filters[id].ws
    {
    }

    /** `processEvent`: the event's applications one after another. */
    method ProcessEvent(apps: seq<Application>)
      requires Valid()
      modifies known.Values`msgs
      ensures Valid() && Abs() == Processed(old(Abs()), apps)
    {
      var i := 0;
      while i < |apps|
        invariant 0 <= i <= |apps| && Valid()
        invariant Processed(Abs(), apps[i..]) == Processed(old(Abs()), apps)
      {
        AppendNodeLogToFilters(apps[i]);
        assert apps[i..][1..] == apps[i + 1..];
        i := i + 1;
      }
    }

    /** `flushWsFilters`: send under the read lock, then uninstall the filters whose socket is closed.
        `limit` says after how many messages a write fails, `closed` which failures mean a closed
        socket. */
    method FlushWsFilters(limit: map<Id, nat>, closed: set<Id>)
        returns (written: map<Id, seq<Application>>, closedIDs: seq<Id>)
      requires Valid()
      modifies `filters, known.Values`msgs, timeouts`elems, Bases()`index
      ensures Valid() && Abs() == RemovedAll(FilterSpec.FlushWs(old(Abs())), closedIDs)
      ensures Written(old(Abs()), limit, {}, written)
      ensures ClosedOnes(old(Abs()), closed, written, closedIDs)
    {
      hide FilterSpec.RemoveFilterByID, FilterSpec.FlushWs, Valid;
      written, closedIDs := SendUpdates(limit, closed);
      ghost var s := Abs();
      var i := 0;
      while i < |closedIDs|
        invariant 0 <= i <= |closedIDs| && Valid() && known == old(known)
        invariant RemovedAll(Abs(), closedIDs[i..]) == RemovedAll(s, closedIDs)
      {
        var _, _ := RemoveFilterByID(closedIDs[i]);
        assert closedIDs[i..][1..] == closedIDs[i + 1..];
        i := i + 1;
      }
    }

    /** The sending loop of `flushWsFilters`, with `sendUpdates` for each filter. */
    method SendUpdates(limit: map<Id, nat>, closed: set<Id>)
        returns (written: map<Id, seq<Application>>, closedIDs: seq<Id>)
      requires Valid()
      modifies known.Values`msgs
      ensures Valid() && Abs() == FilterSpec.FlushWs(old(Abs()))
      ensures Written(old(Abs()), limit, {}, written)
      ensures ClosedOnes(old(Abs()), closed, written, closedIDs)
    {
      hide Valid, Abs, AbsFilter, Bases, Merged, FilterSpec.FlushWs, Written, ClosedOnes;
      ghost var s := Abs();
      ghost var t := FilterSpec.FlushWs(s);
      written, closedIDs := map[], [];
      var todo := filters.Keys;
      assert s.filters.Keys == filters.Keys by { FiltersOf(); }
      FlushWsAt(s);
      MergedAll(s, t);
      NothingWritten(s, limit, closed);
      while todo != {}
        invariant todo <= filters.Keys && Valid() && Abs() == Merged(s, t, todo)
        invariant Written(s, limit, todo, written)
        invariant ClosedOnes(s, closed, written, closedIDs)
        decreases todo
      {
        var id :| id in todo;
        assert filters[id] in known.Values && filters[id].ws == Abs().filters[id].hasWs by { FilterOf(id); }
        MergedStep(s, t, todo, id);
        WrittenStep(s, limit, todo, written, id);
        if filters[id].ws {
          var sent, failed := SendUpdatesOf(id, limit);
          ClosedStep(s, closed, written, closedIDs, id, sent);
          written := written[id := sent];
          if failed && id in closed {
            closedIDs := closedIDs + [id];
          }
        }
        todo := todo - {id};
      }
    }

    /** `sendUpdates`: the stored messages are taken, and written until a write fails. */
    method SendUpdatesOf(id: Id, limit: map<Id, nat>) returns (sent: seq<Application>, failed: bool)
      requires Valid() && id in filters
      modifies (filters[id] as NodeFilter)`msgs
      ensures Valid() && id in old(Abs()).filters
      ensures var msgs := old(Abs()).filters[id].msgs;
              && failed == (id in limit && limit[id] < |msgs|)
              && sent == if failed then msgs[..limit[id]] else msgs
      ensures Abs() == WithFilter(old(Abs()), id, old(Abs()).filters[id].(msgs := []))
    {
      var updates := TakeFrom(id);
      var n := if id in limit && limit[id] < |updates| then limit[id] else |updates|;
      sent, failed := updates[..n], n < |updates|;
    }
  }

  /** What reaches each socket: the stored messages up to the first failing write. The filters of
      `todo` have not had their turn. */
  ghost predicate Written(s: FilterSpec.State, limit: map<Id, nat>, todo: set<Id>,
                          written: map<Id, seq<Application>>) {
    && (forall id :: id in written <==> id in s.filters && id !in todo && s.filters[id].hasWs)
    && (forall id | id in written ::
          var msgs := s.filters[id].msgs;
          written[id] == if id in limit && limit[id] < |msgs| then msgs[..limit[id]] else msgs)
  }

  /** The sockets on which a write failed in the way that means they are closed. */
  ghost predicate ClosedOnes(s: FilterSpec.State, closed: set<Id>, written: map<Id, seq<Application>>,
                             closedIDs: seq<Id>) {
    forall id :: id in closedIDs <==>
      id in written && id in closed && id in s.filters && written[id] != s.filters[id].msgs
  }

  lemma ClosedStep(s: FilterSpec.State, closed: set<Id>, written: map<Id, seq<Application>>,
                   closedIDs: seq<Id>, id: Id, sent: seq<Application>)
    requires ClosedOnes(s, closed, written, closedIDs) && id !in written && id in s.filters
    ensures ClosedOnes(s, closed, written[id := sent],
                       if sent != s.filters[id].msgs && id in closed then closedIDs + [id] else closedIDs)
  {
  }

  lemma NothingWritten(s: FilterSpec.State, limit: map<Id, nat>, closed: set<Id>)
    ensures Written(s, limit, s.filters.Keys, map[]) && ClosedOnes(s, closed, map[], [])
  {
  }

  lemma WrittenStep(s: FilterSpec.State, limit: map<Id, nat>, todo: set<Id>,
                    written: map<Id, seq<Application>>, id: Id)
    requires Written(s, limit, todo, written) && id in todo && id in s.filters
    ensures forall k | k in written :: k in s.filters
    ensures id !in written
    ensures var f := s.filters[id];
            var failed := id in limit && limit[id] < |f.msgs|;
            var sent := if failed then f.msgs[..limit[id]] else f.msgs;
            if f.hasWs then Written(s, limit, todo - {id}, written[id := sent])
            else Written(s, limit, todo - {id}, written)
  {
  }

  /** A loop over the filters half way from s to t: the filters of `todo` have not had their turn. */
  ghost function Merged(s: FilterSpec.State, t: FilterSpec.State, todo: set<Id>): FilterSpec.State
    requires s.filters.Keys == t.filters.Keys
  {
    s.(filters := map id | id in s.filters :: if id in todo then s.filters[id] else t.filters[id])
  }

  lemma MergedAll(s: FilterSpec.State, t: FilterSpec.State)
    requires s.filters.Keys == t.filters.Keys && s.timeouts == t.timeouts
    ensures Merged(s, t, s.filters.Keys) == s && Merged(s, t, {}) == t
  {
    assert Merged(s, t, s.filters.Keys).filters == s.filters;
    assert Merged(s, t, {}).filters == t.filters;
  }

  lemma MergedStep(s: FilterSpec.State, t: FilterSpec.State, todo: set<Id>, id: Id)
    requires s.filters.Keys == t.filters.Keys && id in todo && id in s.filters
    ensures id in Merged(s, t, todo).filters && Merged(s, t, todo).filters[id] == s.filters[id]
    ensures WithFilter(Merged(s, t, todo), id, t.filters[id]) == Merged(s, t, todo - {id})
    ensures t.filters[id] == s.filters[id] ==> Merged(s, t, todo) == Merged(s, t, todo - {id})
  {
    assert WithFilter(Merged(s, t, todo), id, t.filters[id]).filters == Merged(s, t, todo - {id}).filters;
    if t.filters[id] == s.filters[id] {
      assert Merged(s, t, todo).filters == Merged(s, t, todo - {id}).filters;
    }
  }

  lemma AppendToFiltersAt(s: FilterSpec.State, app: Application)
    ensures var t := FilterSpec.AppendToFilters(s, app);
            && t.filters.Keys == s.filters.Keys && t.timeouts == s.timeouts
            && forall id | id in s.filters :: t.filters[id] == FilterSpec.Stored(s.filters[id], app)
  {
  }

  lemma FlushWsAt(s: FilterSpec.State)
    ensures var t := FilterSpec.FlushWs(s);
            && t.filters.Keys == s.filters.Keys && t.timeouts == s.timeouts
            && forall id | id in s.filters :: t.filters[id] ==
                 if s.filters[id].hasWs then s.filters[id].(msgs := []) else s.filters[id]
  {
  }

  function WithFilter(s: FilterSpec.State, id: Id, f: FilterSpec.Filter): FilterSpec.State {
    s.(filters := s.filters[id := f])
  }

  function RemovedAll(s: FilterSpec.State, ids: seq<Id>): FilterSpec.State
    decreases |ids|
  {
    if ids == [] then s else RemovedAll(FilterSpec.RemoveFilterByID(s, ids[0]), ids[1..])
  }

  /** The filters, where id, if it is installed, has this expiry. */
  function Expiring(filters: map<Id, FilterSpec.Filter>, id: Id, expires: int): map<Id, FilterSpec.Filter> {
    if id in filters then filters[id := filters[id].(expiresAt := expires)] else filters
  }

  lemma AddFilterInTwo(s: FilterSpec.State, id: Id, ws: bool, query: NodeQuery, expires: int)
    ensures var filters := s.filters[id := FilterSpec.Filter(ws, query, 0, [])];
            FilterSpec.AddFilter(s, id, ws, query, expires) ==
              if ws then FilterSpec.State(filters, s.timeouts)
              else FilterSpec.State(Expiring(filters, id, expires), Push(s.timeouts, Entry(id, expires)))
  {
  }

  /** An event's applications appended one after another. */
  function Processed(s: FilterSpec.State, apps: seq<Application>): FilterSpec.State
    decreases |apps|
  {
    if apps == [] then s else Processed(FilterSpec.AppendToFilters(s, apps[0]), apps[1..])
  }

  // ---- the worker's event as steps of a run ----

  function Dispatches(apps: seq<Application>): (ops: seq<FilterRuns.Op>)
    ensures |ops| == |apps| && forall i | 0 <= i < |ops| :: ops[i].Dispatch? && ops[i].app == apps[i]
  {
    seq(|apps|, i requires 0 <= i < |apps| => FilterRuns.Dispatch(apps[i]))
  }

  function Uninstalls(ids: seq<Id>): (ops: seq<FilterRuns.Op>)
    ensures |ops| == |ids| && forall i | 0 <= i < |ops| :: ops[i].Uninstall? && ops[i].id == ids[i]
  {
    seq(|ids|, i requires 0 <= i < |ids| => FilterRuns.Uninstall(ids[i]))
  }

  lemma {:induction false} ProcessedIsRun(w: FilterRuns.World, apps: seq<Application>)
    ensures FilterRuns.Run(w, Dispatches(apps)).s == Processed(w.s, apps)
    ensures FilterRuns.Run(w, Dispatches(apps)).log == w.log + apps
    decreases |apps|
  {
    if apps == [] {
      assert w.log + [] == w.log;
    } else {
      assert Dispatches(apps)[1..] == Dispatches(apps[1..]);
      ProcessedIsRun(FilterRuns.Step(w, FilterRuns.Dispatch(apps[0])), apps[1..]);
      assert w.log + [apps[0]] + apps[1..] == w.log + apps;
    }
  }

  lemma {:induction false} RemovedAllIsRun(w: FilterRuns.World, ids: seq<Id>)
    ensures FilterRuns.Run(w, Uninstalls(ids)).s == RemovedAll(w.s, ids)
    decreases |ids|
  {
    if ids != [] {
      hide FilterSpec.RemoveFilterByID;
      assert Uninstalls(ids)[1..] == Uninstalls(ids[1..]);
      RemovedAllIsRun(FilterRuns.Step(w, FilterRuns.Uninstall(ids[0])), ids[1..]);
    }
  }

  /** So what `ProcessEvent` and `FlushWsFilters` leave is the end of a run, and all that is proved of
      every run holds of it. */
  lemma EventIsRun(w: FilterRuns.World, apps: seq<Application>, limit: map<Id, nat>, ids: seq<Id>)
    ensures var flushed := FilterRuns.Step(FilterRuns.Run(w, Dispatches(apps)), FilterRuns.Flush(limit));
            && flushed.s == FilterSpec.FlushWs(Processed(w.s, apps))
            && FilterRuns.Run(flushed, Uninstalls(ids)).s == RemovedAll(FilterSpec.FlushWs(Processed(w.s, apps)), ids)
  {
    hide FilterSpec.FlushWs;
    ProcessedIsRun(w, apps);
    RemovedAllIsRun(FilterRuns.Step(FilterRuns.Run(w, Dispatches(apps)), FilterRuns.Flush(limit)), ids);
  }
}

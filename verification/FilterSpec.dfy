/**
 The critical sections of the filter manager as functions on its state
 (core/jsonrpc/web3/node_filter_manager.go).

 A filter's id is its identity: ids are UUIDs and never reused. `FilterManager` has the object
 that is updated in place and shows that each method computes the function given here.
 */
module FilterSpec {
  import opened ContainerHeap
  import opened NodeQueries

  type Id = string

  datatype Filter = Filter(hasWs: bool, query: NodeQuery, expiresAt: int, msgs: seq<Application>)

  datatype State = State(filters: map<Id, Filter>, timeouts: seq<Entry<Id>>)

  datatype Error = FilterNotFound | WsFilterDoesNotSupportGetChanges

  datatype Result<T> = Ok(value: T) | Err(error: Error)

  /** `addFilter`: only a filter without a websocket gets an expiry and enters the heap. */
  function AddFilter(s: State, id: Id, ws: bool, query: NodeQuery, expires: int): State {
    if ws then State(s.filters[id := Filter(ws, query, 0, [])], s.timeouts)
    else State(s.filters[id := Filter(ws, query, expires, [])], Push(s.timeouts, Entry(id, expires)))
  }

  function RemoveFilterByID(s: State, id: Id): State {
    if id !in s.filters then s else State(s.filters - {id}, RemoveItem(s.timeouts, id))
  }

  /** Whether `removeFilterByID` notifies the worker. */
  predicate RemoveSignals(s: State, id: Id) {
    id in s.filters && IndexOf(s.timeouts, id) != -1
  }

  /** What `getFilterAndChanges` returns... */
  function Changes(s: State, id: Id): Result<seq<Application>> {
    if id !in s.filters then Err(FilterNotFound)
    else if s.filters[id].hasWs then Err(WsFilterDoesNotSupportGetChanges)
    else Ok(s.filters[id].msgs)
  }

  /** ... and what it leaves. */
  function TakeChanges(s: State, id: Id): State {
    if Changes(s, id).Err? then s else s.(filters := s.filters[id := s.filters[id].(msgs := [])])
  }

  /** `refreshFilterTimeout` works on the filter object, installed or not. */
  function RefreshTimeout(s: State, id: Id, expires: int): State {
    State(if id in s.filters then s.filters[id := s.filters[id].(expiresAt := expires)] else s.filters,
          Push(RemoveItem(s.timeouts, id), Entry(id, expires)))
  }

  /** `appendNodeLogToFilters`: every filter whose query matches stores the application. */
  function AppendToFilters(s: State, app: Application): State {
    s.(filters := map id | id in s.filters :: Stored(s.filters[id], app))
  }

  function Stored(f: Filter, app: Application): Filter {
    if Match(f.query, app) then f.(msgs := f.msgs + [app]) else f
  }

  /** How many messages reach the socket before a write fails; all of them when none does. */
  function Sent(f: Filter, limit: map<Id, nat>, id: Id): (n: nat)
    ensures n <= |f.msgs|
  {
    if id in limit && limit[id] < |f.msgs| then limit[id] else |f.msgs|
  }

  /** The sending half of `flushWsFilters`: stored messages are taken whether or not they get written. */
  function FlushWs(s: State): State {
    s.(filters := map id | id in s.filters ::
      if s.filters[id].hasWs then s.filters[id].(msgs := []) else s.filters[id])
  }
}

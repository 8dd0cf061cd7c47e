/** Node queries and the applications they select (core/jsonrpc/web3/node_query.go). */
module NodeQueries {
  import opened Subsequences

  /** An online node. `peerID` is the text form the query compares with; `details` stands for the
      fields no query looks at. */
  datatype Application = Application(name: string, tag: string, version: string, peerID: string, details: string)

  datatype NodeQuery = NodeQuery(name: string, tag: string, id: string, version: string)

  /** An empty field of the query matches anything. */
  predicate Match(q: NodeQuery, app: Application): (m: bool)
    ensures m <==> (
              && (q.tag == "" || q.tag == app.tag) && (q.name == "" || q.name == app.name)
              && (q.id == "" || q.id == app.peerID) && (q.version == "" || q.version == app.version))
  {
    if q.tag != "" && q.tag != app.tag then false
    else if q.name != "" && app.name != q.name then false
    else if q.id != "" && app.peerID != q.id then false
    else !(q.version != "" && app.version != q.version)
  }

  /** The applications of a log that the query asks for, in order. */
  function Select(q: NodeQuery, log: seq<Application>): seq<Application> {
    if log == [] then []
    else Select(q, log[..|log| - 1]) + (if Match(q, log[|log| - 1]) then [log[|log| - 1]] else [])
  }

  lemma SelectSnoc(q: NodeQuery, log: seq<Application>, app: Application)
    ensures Select(q, log + [app]) == Select(q, log) + (if Match(q, app) then [app] else [])
  {
    assert (log + [app])[..|log|] == log;
  }

  /** What is selected are the matching applications, each as often as it is in the log and in the
      same order. */
  lemma {:induction false} SelectExact(q: NodeQuery, log: seq<Application>, x: Application)
    ensures Subseq(Select(q, log), log)
    ensures multiset(Select(q, log))[x] == if Match(q, x) then multiset(log)[x] else 0
    decreases |log|
  {
    hide Match, Select, Subseq;
    if log == [] {
      SelectNone(q);
    } else {
      var front, last := log[..|log| - 1], log[|log| - 1];
      var c := Select(q, front);
      assert log == front + [last];
      SelectExact(q, front, x);
      SelectSnoc(q, front, last);
      SubseqKeep(c, front, last);
      CountMore(front, last, x);
      CountMore(c, last, x);
      assert c + [] == c;
    }
  }

  lemma SelectNone(q: NodeQuery)
    ensures Select(q, []) == [] && Subseq<Application>([], [])
  {
  }
}

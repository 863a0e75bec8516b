/** The Server resource (src/main/kotlin/simulation/resources/Server.kt):
    a blocked flag, the active request and a FIFO queue of waiting requests.
    Each operation returns the events the kernel must succeed or expire. */
module Servers {
  import opened Basics

  /** A ServerRequestEvent: its event and the scope (process) that made it. */
  datatype Request = Request(event: Ref, scope: Ref)

  datatype Server = Server(isBlocked: bool, requestQueue: seq<Request>, active: Option<Request>)

  /** What an operation asks the kernel to do besides replacing the server:
      `granted` is a request event to succeed with the server as its value,
      `expired` a request event to expire. */
  datatype Outcome = Outcome(server: Server, granted: Option<Ref>, expired: Option<Ref>)

  function NewServer(): (s: Server)
    ensures !s.isBlocked && s.requestQueue == [] && s.active == None
  {
    Server(false, [], None)
  }

  /** tryRequest: queue at the back when blocked, otherwise grant at once. */
  function TryRequest(s: Server, q: Request): (o: Outcome)
    ensures o.expired == None
    ensures s.isBlocked ==> o.server == s.(requestQueue := s.requestQueue + [q]) && o.granted == None
    ensures !s.isBlocked ==> o.server == s && o.granted == Some(q.event)
  {
    if s.isBlocked then Outcome(s.(requestQueue := s.requestQueue + [q]), None, None)
    else Outcome(s, Some(q.event), None)
  }

  /** processRequest: the fired request becomes the active one. */
  function ProcessRequest(s: Server, q: Request): (r: Server)
    ensures r.active == Some(q)
    ensures r.(active := s.active) == s
  {
    s.(active := Some(q))
  }

  /** tryRelease: unblock (the kernel then succeeds the release event). */
  function TryRelease(s: Server): (r: Server)
    ensures !r.isBlocked
    ensures r.(isBlocked := s.isBlocked) == s
  {
    s.(isBlocked := false)
  }

  /** processRelease: expire and clear the active request; if requests wait,
      take exactly the head and retry it through tryRequest. */
  function ProcessRelease(s: Server): (o: Outcome)
    ensures o.expired == (if s.active.Some? then Some(s.active.value.event) else None)
    ensures o.server.active == None && o.server.isBlocked == s.isBlocked
    ensures s.requestQueue == [] ==> o.server.requestQueue == [] && o.granted == None
    ensures s.requestQueue != [] && !s.isBlocked ==>
      o.server.requestQueue == s.requestQueue[1..] && o.granted == Some(s.requestQueue[0].event)
    ensures s.requestQueue != [] && s.isBlocked ==>
      o.server.requestQueue == s.requestQueue[1..] + [s.requestQueue[0]] && o.granted == None
  {
    var expired := if s.active.Some? then Some(s.active.value.event) else None;
    var cleared := s.(active := None);
    if cleared.requestQueue == [] then Outcome(cleared, None, expired)
    else
      var next := cleared.requestQueue[0];
      var t := TryRequest(cleared.(requestQueue := cleared.requestQueue[1..]), next);
      Outcome(t.server, t.granted, expired)
  }

  /** The scope check of serverAction: allowed only for the scope of the
      active request; with no active request nothing is allowed. */
  predicate Permits(s: Server, scope: Ref) {
    s.active.Some? && s.active.value.scope == scope
  }

  /** Server operations as the kernel can invoke them. */
  datatype Op = Req(q: Request) | Proc(q: Request) | Rel | ProcRel

  /** One operation; also reports the requests that entered the queue
      (`entered`) and the ones that left it from the front (`left`). */
  function Apply(s: Server, op: Op): (r: (Server, seq<Request>, seq<Request>))
  {
    match op
    case Req(q) =>
      (TryRequest(s, q).server, if s.isBlocked then [q] else [], [])
    case Proc(q) => (ProcessRequest(s, q), [], [])
    case Rel => (TryRelease(s), [], [])
    case ProcRel =>
      if s.requestQueue == [] then (ProcessRelease(s).server, [], [])
      else (ProcessRelease(s).server, if s.isBlocked then [s.requestQueue[0]] else [], [s.requestQueue[0]])
  }

  /** A run of operations, with everything that entered and left the queue. */
  function Replay(s: Server, ops: seq<Op>): (r: (Server, seq<Request>, seq<Request>))
    decreases |ops|
  {
    if ops == [] then (s, [], [])
    else
      var (s1, e1, l1) := Apply(s, ops[0]);
      var (s2, e2, l2) := Replay(s1, ops[1..]);
      (s2, e1 + e2, l1 + l2)
  }

  /** FIFO: whatever happens, the requests that left the queue followed by
      those still waiting are exactly the ones that were waiting at the start
      followed by those that entered, in the same order. No request is
      skipped, reordered or lost. */
  lemma {:induction false} ReplayIsFifo(s: Server, ops: seq<Op>)
    ensures var (s', entered, left) := Replay(s, ops);
      left + s'.requestQueue == s.requestQueue + entered
    decreases |ops|
  {
    if ops != [] {
      var (s1, e1, l1) := Apply(s, ops[0]);
      ApplyIsFifo(s, ops[0]);
      ReplayIsFifo(s1, ops[1..]);
      var (s2, e2, l2) := Replay(s1, ops[1..]);
      assert l2 + s2.requestQueue == s1.requestQueue + e2;
      assert l1 + s1.requestQueue == s.requestQueue + e1;
      calc {
        (l1 + l2) + s2.requestQueue;
        l1 + (s1.requestQueue + e2);
        (l1 + s1.requestQueue) + e2;
        (s.requestQueue + e1) + e2;
      }
    }
  }

  lemma ApplyIsFifo(s: Server, op: Op)
    ensures var (s', entered, left) := Apply(s, op);
      left + s'.requestQueue == s.requestQueue + entered
  {
    if op.ProcRel? && s.requestQueue != [] {
      assert [s.requestQueue[0]] + s.requestQueue[1..] == s.requestQueue;
    }
  }

  /** The blocked flag is never set to true by any operation, so a server
      that starts unblocked stays unblocked. */
  lemma {:induction false} NeverBlocked(s: Server, ops: seq<Op>)
    requires !s.isBlocked
    ensures !Replay(s, ops).0.isBlocked
    decreases |ops|
  {
    if ops != [] {
      NeverBlocked(Apply(s, ops[0]).0, ops[1..]);
    }
  }

  /** Consequently, as written, nothing ever waits: every request sent
      through tryRequest is granted at once and the queue stays empty. */
  lemma {:induction false} QueueStaysEmpty(ops: seq<Op>)
    ensures Replay(NewServer(), ops).0.requestQueue == []
    ensures Replay(NewServer(), ops).1 == []
  {
    QueueStaysEmptyFrom(NewServer(), ops);
  }

  lemma {:induction false} QueueStaysEmptyFrom(s: Server, ops: seq<Op>)
    requires !s.isBlocked && s.requestQueue == []
    ensures Replay(s, ops).0.requestQueue == [] && !Replay(s, ops).0.isBlocked
    ensures Replay(s, ops).1 == []
    decreases |ops|
  {
    if ops != [] {
      QueueStaysEmptyFrom(Apply(s, ops[0]).0, ops[1..]);
    }
  }
}

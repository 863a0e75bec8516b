/** Servers inside the environment (src/main/kotlin/simulation/resources/Server.kt):
    creation, the request/release constructors that wire and schedule a
    helper event, the server callbacks with their succeed/expire effects,
    and the scope check of serverAction. */
module ServerEvents {
  import opened Basics
  import opened Events
  import opened State
  import Servers

  /** A request or release event, its private helper, and the state holding both. */
  datatype Wired = Wired(env: Env, event: Ref, helper: Ref)

  /** Server(env): a new unblocked, idle server at the next index. */
  function NewServer(env: Env): (r: (Env, ServerRef))
    ensures r.1 == |env.servers| && |r.0.servers| == |env.servers| + 1
    ensures r.0.servers[r.1] == Servers.NewServer()
    ensures r.0.servers[..|env.servers|] == env.servers
    ensures r.0.(servers := env.servers) == env
  {
    (env.(servers := env.servers + [Servers.NewServer()]), |env.servers|)
  }

  /** Replace server `srv`. */
  function SetServer(env: Env, srv: ServerRef, s: Servers.Server): (env': Env)
    requires srv < |env.servers|
    ensures Evolves(env, env')
    ensures env'.servers[srv] == s
    ensures env' == env.(servers := env.servers[srv := s])
  {
    env.(servers := env.servers[srv := s])
  }

  /** ServerRequestEvent construction minus its last line: the request event
      carries `processRequest(this)`, its helper `tryRequest(this)`. */
  function WireRequest(env: Env, srv: ServerRef, scope: Ref): (w: Wired)
    ensures Evolves(env, w.env)
    ensures w.event == env.nextRef && w.helper == env.nextRef + 1
    ensures w.event in w.env.events && w.helper in w.env.events
    ensures w.env.events[w.event].callbacks == [ProcessRequest(srv, Servers.Request(w.event, scope))]
    ensures !w.env.events[w.event].triggered && ValueOf(w.env.events[w.event]) == None
    ensures w.env.events[w.helper].callbacks == [TryRequest(srv, Servers.Request(w.event, scope))]
    ensures w.env.events[w.helper].delay == 0
    ensures w.env.queue == env.queue && w.env.servers == env.servers
  {
    var q := Allocate(env, NewEvent(0, Normal, Plain).value.(callbacks := [ProcessRequest(srv, Servers.Request(env.nextRef, scope))]));
    var h := Allocate(q.env, NewEvent(0, Normal, Plain).value.(callbacks := [TryRequest(srv, Servers.Request(q.ref, scope))]));
    Wired(h.env, q.ref, h.ref)
  }

  /** ServerReleaseEvent construction minus its last line: the release event
      carries `processRelease()`, its helper `tryRelease(this)`. */
  function WireRelease(env: Env, srv: ServerRef): (w: Wired)
    ensures Evolves(env, w.env)
    ensures w.event == env.nextRef && w.helper == env.nextRef + 1
    ensures w.event in w.env.events && w.helper in w.env.events
    ensures w.env.events[w.event].callbacks == [ProcessRelease(srv)]
    ensures !w.env.events[w.event].triggered && ValueOf(w.env.events[w.event]) == None
    ensures w.env.events[w.helper].callbacks == [TryRelease(srv, w.event)]
    ensures w.env.events[w.helper].delay == 0
    ensures w.env.queue == env.queue && w.env.servers == env.servers
  {
    var l := Allocate(env, NewEvent(0, Normal, Plain).value.(callbacks := [ProcessRelease(srv)]));
    var h := Allocate(l.env, NewEvent(0, Normal, Plain).value.(callbacks := [TryRelease(srv, l.ref)]));
    Wired(h.env, l.ref, h.ref)
  }

  /** request(scope): the request event; only its helper is scheduled, due now. */
  function Request(env: Env, srv: ServerRef, scope: Ref): (a: Allocated)
    ensures Evolves(env, a.env)
    ensures a.ref in a.env.events && a.ref + 1 in a.env.events
    ensures a.env.events[a.ref].callbacks == [ProcessRequest(srv, Servers.Request(a.ref, scope))]
    ensures a.env.events[a.ref + 1].callbacks == [TryRequest(srv, Servers.Request(a.ref, scope))]
    ensures a.env.events[a.ref + 1].due == env.now
    ensures a.env.queue == env.queue + [a.ref + 1]
  {
    var w := WireRequest(env, srv, scope);
    Allocated(Schedule(w.env, w.helper), w.event)
  }

  /** release(): the release event; only its helper is scheduled, due now. */
  function Release(env: Env, srv: ServerRef): (a: Allocated)
    ensures Evolves(env, a.env)
    ensures a.ref in a.env.events && a.ref + 1 in a.env.events
    ensures a.env.events[a.ref].callbacks == [ProcessRelease(srv)]
    ensures a.env.events[a.ref + 1].callbacks == [TryRelease(srv, a.ref)]
    ensures a.env.events[a.ref + 1].due == env.now
    ensures a.env.queue == env.queue + [a.ref + 1]
  {
    var w := WireRelease(env, srv);
    Allocated(Schedule(w.env, w.helper), w.event)
  }

  /** Succeed `r` with the server as its value, if there is one to succeed. */
  function Grant(env: Env, r: Option<Ref>, srv: ServerRef): (env': Env)
    ensures Evolves(env, env')
    ensures r.None? ==> env' == env
    ensures r.Some? ==> env' == SucceedWith(env, r.value, ServerVal(srv))
  {
    if r.Some? then SucceedWith(env, r.value, ServerVal(srv)) else env
  }

  /** The `server.tryRequest(this)` callback of a request helper: grant the
      request with the server as value, unless the server is blocked. */
  function DoTryRequest(env: Env, srv: ServerRef, q: Servers.Request): (env': Env)
    ensures Evolves(env, env')
    ensures srv >= |env.servers| ==> env' == env
    ensures srv < |env.servers| ==>
      |env'.servers| == |env.servers| && env'.servers[srv] == Servers.TryRequest(env.servers[srv], q).server
    ensures srv < |env.servers| && !env.servers[srv].isBlocked && q.event in env.events ==>
      q.event in env'.events && ValueOf(env'.events[q.event]) == Some(ServerVal(srv))
      && env'.queue == env.queue + [q.event]
    ensures srv < |env.servers| && env.servers[srv].isBlocked ==>
      env'.queue == env.queue && env'.events == env.events
  {
    if srv >= |env.servers| then env
    else
      var o := Servers.TryRequest(env.servers[srv], q);
      Grant(SetServer(env, srv, o.server), o.granted, srv)
  }

  /** The `server.processRequest(this)` callback of a request event. */
  function DoProcessRequest(env: Env, srv: ServerRef, q: Servers.Request): (env': Env)
    ensures Evolves(env, env')
    ensures srv >= |env.servers| ==> env' == env
    ensures srv < |env.servers| ==>
      |env'.servers| == |env.servers| && env'.servers[srv].active == Some(q)
      && Servers.Permits(env'.servers[srv], q.scope)
      && env' == env.(servers := env.servers[srv := env'.servers[srv]])
  {
    if srv >= |env.servers| then env
    else SetServer(env, srv, Servers.ProcessRequest(env.servers[srv], q))
  }

  /** The `server.tryRelease(this)` callback of a release helper: unblock,
      then succeed the release event with the server as value. */
  function DoTryRelease(env: Env, srv: ServerRef, l: Ref): (env': Env)
    ensures Evolves(env, env')
    ensures srv >= |env.servers| ==> env' == env
    ensures srv < |env.servers| ==>
      |env'.servers| == |env.servers| && !env'.servers[srv].isBlocked
      && env'.servers[srv].active == env.servers[srv].active
      && env'.servers[srv].requestQueue == env.servers[srv].requestQueue
    ensures srv < |env.servers| && l in env.events ==>
      l in env'.events && ValueOf(env'.events[l]) == Some(ServerVal(srv)) && env'.queue == env.queue + [l]
  {
    if srv >= |env.servers| then env
    else SucceedWith(SetServer(env, srv, Servers.TryRelease(env.servers[srv])), l, ServerVal(srv))
  }

  /** The `server.processRelease()` callback of a release event: expire the
      active request's event, clear it, and retry the oldest waiting request. */
  function DoProcessRelease(env: Env, srv: ServerRef): (env': Env)
    ensures Evolves(env, env')
    ensures srv >= |env.servers| ==> env' == env
    ensures srv < |env.servers| ==>
      |env'.servers| == |env.servers| && env'.servers[srv] == Servers.ProcessRelease(env.servers[srv]).server
      && env'.servers[srv].active == None
      && (forall scope :: !Servers.Permits(env'.servers[srv], scope))
    ensures srv < |env.servers| && env.servers[srv].requestQueue == [] ==> env'.queue == env.queue
    // the released request expires first; only granting that same event
    // again to the next waiting request could make it readable again
    ensures srv < |env.servers| && env.servers[srv].active.Some? && env.servers[srv].active.value.event in env.events
            && (env.servers[srv].requestQueue == [] || env.servers[srv].isBlocked
                || env.servers[srv].requestQueue[0].event != env.servers[srv].active.value.event) ==>
      var q := env.servers[srv].active.value.event;
      q in env'.events && ValueOf(env'.events[q]) == None && env'.events[q].status == Expired
  {
    if srv >= |env.servers| then env
    else
      var o := Servers.ProcessRelease(env.servers[srv]);
      var e1 := SetServer(env, srv, o.server);
      var e2 := if o.expired.Some? then ExpireEvent(e1, o.expired.value) else e1;
      Grant(e2, o.granted, srv)
  }

  /** serverAction(scope, fn): start the process `p` only when `scope` holds
      the server's active request; otherwise InvalidServerAction. */
  function ServerAction(env: Env, srv: ServerRef, scope: Ref, p: Ref): (r: Result<Env>)
    ensures Evolves(env, if r.Ok? then r.value else env)
    ensures r.Ok? <==> srv < |env.servers| && Servers.Permits(env.servers[srv], scope)
    ensures r.Err? ==> r.error == InvalidServerAction
    ensures r.Ok? ==> r.value == Schedule(env, p)
  {
    if srv < |env.servers| && Servers.Permits(env.servers[srv], scope) then Ok(Schedule(env, p))
    else Err(InvalidServerAction)
  }

  /** The request/serve/release cycle on an idle, unblocked server: the
      request helper grants the request at once with the server as value;
      the request firing makes its scope the holder, so serverAction is
      allowed from that scope and from no other; the release firing expires
      the request's value and nobody holds the server any more. */
  lemma RequestServeRelease(env: Env, srv: ServerRef, q: Servers.Request, other: Ref, p: Ref)
    requires srv < |env.servers| && env.servers[srv] == Servers.NewServer()
    requires q.event in env.events && other != q.scope
    ensures var e1 := DoTryRequest(env, srv, q);
            var e2 := DoProcessRequest(e1, srv, q);
            var e3 := DoProcessRelease(e2, srv);
      && ValueOf(e1.events[q.event]) == Some(ServerVal(srv))
      && ServerAction(e2, srv, q.scope, p).Ok?
      && ServerAction(e2, srv, other, p) == Err(InvalidServerAction)
      && ValueOf(e3.events[q.event]) == None && e3.events[q.event].status == Expired
      && ServerAction(e3, srv, q.scope, p) == Err(InvalidServerAction)
  {
    var e1 := DoTryRequest(env, srv, q);
    var e2 := DoProcessRequest(e1, srv, q);
    assert e2.servers[srv] == Servers.Server(false, [], Some(q));
  }
}

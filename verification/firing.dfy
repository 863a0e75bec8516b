/** Firing an event (EventBase.processEvent, src/main/kotlin/simulation/event/EventBase.kt,
    and its SimProcess override, core/src/main/kotlin/process/SimProcess.kt):
    set the flags, run the callback list captured at the start, in order,
    each receiving the event itself, and stop at the first signal raised. */
module Firing {
  import opened Basics
  import opened Events
  import opened State
  import Processes
  import Conditions
  import StoreEvents
  import ServerEvents
  import Stores

  /** Run one callback for event `ev`. */
  function Dispatch(env: Env, cb: Callback, ev: Ref): (f: Fired)
    ensures Evolves(env, f.env)
    ensures cb.Stop? ==> f == Fired(env, Some(StopSignal))
    ensures cb.Observe? ==> f == Fired(Log(env, cb.tag, ev), None)
    ensures f.raised == Some(StopSignal) ==> cb.Stop?
    ensures f.raised.Some? && !cb.Stop? ==> cb.Resume? && f.raised == Some(Raised(InvalidServerAction))
  {
    match cb
    case Resume(p) => Processes.Resume(env, p)
    case TryGet(s, g) => Fired(StoreEvents.DoTryGet(env, s, g), None)
    case ProcessGet(s) => Fired(StoreEvents.DoProcessGet(env, s), None)
    case TryPut(s, p, item) => Fired(StoreEvents.DoTryPut(env, s, Stores.PutRequest(p, item)), None)
    case ProcessPut(s) => Fired(StoreEvents.DoProcessPut(env, s), None)
    case TryRequest(srv, q) => Fired(ServerEvents.DoTryRequest(env, srv, q), None)
    case ProcessRequest(srv, q) => Fired(ServerEvents.DoProcessRequest(env, srv, q), None)
    case TryRelease(srv, l) => Fired(ServerEvents.DoTryRelease(env, srv, l), None)
    case ProcessRelease(srv) => Fired(ServerEvents.DoProcessRelease(env, srv), None)
    case CondCheck(c, child) => Fired(Conditions.Check(env, c, child), None)
    case Stop => Fired(env, Some(StopSignal))
    case Observe(tag) => Fired(Log(env, tag, ev), None)
  }

  /** The callback loop over a fixed list: each callback once, in order,
      until one raises. */
  function RunCallbacks(env: Env, cs: seq<Callback>, ev: Ref): (f: Fired)
    ensures Evolves(env, f.env)
    ensures cs == [] ==> f == Fired(env, None)
    ensures f.raised == Some(StopSignal) ==> Stop in cs
    ensures f.raised.Some? && f.raised != Some(StopSignal) ==> f.raised == Some(Raised(InvalidServerAction))
    decreases |cs|
  {
    if cs == [] then Fired(env, None)
    else
      var f := Dispatch(env, cs[0], ev);
      if f.raised.Some? then f
      else RunCallbacks(f.env, cs[1..], ev)
  }

  /** What caller-written callbacks leave in the trace: one observation per
      callback, in list order, each naming the fired event and the time. */
  function Observations(cs: seq<Callback>, ev: Ref, time: int): (os: seq<Observation>)
    requires forall k :: 0 <= k < |cs| ==> cs[k].Observe?
    ensures |os| == |cs|
    ensures forall k :: 0 <= k < |cs| ==> os[k] == Observation(cs[k].tag, ev, time)
    decreases |cs|
  {
    if cs == [] then [] else [Observation(cs[0].tag, ev, time)] + Observations(cs[1..], ev, time)
  }

  /** Each callback runs exactly once per firing, in list order, receiving
      the event itself; nothing else changes. */
  lemma {:induction false} CallbacksRunOnceInOrder(env: Env, cs: seq<Callback>, ev: Ref)
    requires forall k :: 0 <= k < |cs| ==> cs[k].Observe?
    ensures RunCallbacks(env, cs, ev) == Fired(env.(trace := env.trace + Observations(cs, ev, env.now)), None)
    decreases |cs|
  {
    if cs != [] {
      var env1 := Log(env, cs[0].tag, ev);
      assert Dispatch(env, cs[0], ev) == Fired(env1, None);
      assert RunCallbacks(env, cs, ev) == RunCallbacks(env1, cs[1..], ev);
      CallbacksRunOnceInOrder(env1, cs[1..], ev);
      var head := [Observation(cs[0].tag, ev, env.now)];
      var tail := Observations(cs[1..], ev, env.now);
      assert Observations(cs, ev, env.now) == head + tail;
      AppendAssoc(env.trace, head, tail);
    }
  }

  /** Mark `r` processed, whatever the callbacks did to it. */
  function MarkProcessed(env: Env, r: Ref): (env': Env)
    ensures Evolves(env, env')
    ensures r in env.events ==> env'.events == env.events[r := env.events[r].(processed := true)]
    ensures r !in env.events ==> env' == env
    ensures env'.(events := env.events) == env
  {
    if r in env.events then Update(env, r, env.events[r].(processed := true)) else env
  }

  /** The flags set on entry: isTriggered, and isAlive for a process. */
  function Trigger(e: Event): (t: Event)
    ensures t.triggered && (e.kind.Process? ==> t.kind.Process? && t.kind.alive)
    ensures t.processed == e.processed && t.callbacks == e.callbacks && t.due == e.due && t.id == e.id
  {
    e.(triggered := true, kind := if e.kind.Process? then e.kind.(alive := true) else e.kind)
  }

  /** processEvent: triggered first, then the callbacks captured now, then
      (for a plain event, and only if no callback raised) processed. */
  function Fire(env: Env, r: Ref): (f: Fired)
    ensures Evolves(env, f.env)
    ensures r !in env.events ==> f == Fired(env, None)
    ensures r in env.events && f.raised.None? && !env.events[r].kind.Process? ==>
      r in f.env.events && f.env.events[r].processed
    ensures f.raised == Some(StopSignal) ==> r in env.events && Stop in env.events[r].callbacks
    ensures f.raised.Some? && f.raised != Some(StopSignal) ==> f.raised == Some(Raised(InvalidServerAction))
  {
    if r !in env.events then Fired(env, None)
    else
      var e := env.events[r];
      var f := RunCallbacks(Update(env, r, Trigger(e)), e.callbacks, r);
      if f.raised.Some? || e.kind.Process? then f
      else Fired(MarkProcessed(f.env, r), None)
  }

  /** Firing with only caller-written callbacks: isTriggered is already set
      when they run, each runs once in order, and isProcessed is set after
      them. */
  lemma FireWithObservers(env: Env, r: Ref)
    requires r in env.events && !env.events[r].kind.Process?
    requires forall k :: 0 <= k < |env.events[r].callbacks| ==> env.events[r].callbacks[k].Observe?
    ensures var e := env.events[r];
            var f := Fire(env, r);
      && f.raised == None
      && f.env.trace == env.trace + Observations(e.callbacks, r, env.now)
      && f.env.events == env.events[r := e.(triggered := true, processed := true)]
      && f.env.queue == env.queue
  {
    var e := env.events[r];
    var e1 := Update(env, r, Trigger(e));
    assert Trigger(e) == e.(triggered := true);
    CallbacksRunOnceInOrder(e1, e.callbacks, r);
    var f := RunCallbacks(e1, e.callbacks, r);
    assert f.env == e1.(trace := env.trace + Observations(e.callbacks, r, env.now)) && f.raised == None;
    assert Fire(env, r) == Fired(MarkProcessed(f.env, r), None);
    assert f.env.events[r] == e.(triggered := true);
  }

  /** The termination callback interrupts the firing: the stop signal is
      raised, isTriggered is set, isProcessed is not, and callbacks after it
      do not run. */
  lemma TerminationInterruptsFiring(env: Env, r: Ref, rest: seq<Callback>)
    requires r in env.events && !env.events[r].processed
    requires env.events[r].callbacks == [Stop] + rest
    ensures var f := Fire(env, r);
      f.raised == Some(StopSignal) && r in f.env.events
      && f.env.events[r].triggered && !f.env.events[r].processed
      && f.env.trace == env.trace && f.env.queue == env.queue
  {
  }

  /** A callback appended while the event fires does not run in that
      firing: a process that yields the very event that is resuming it gets
      its continuation attached, but is resumed only once. */
  lemma AppendedDuringFiringDoesNotRun(env: Env, r: Ref, p: Ref)
    requires r in env.events && !env.events[r].kind.Process? && r != p
    requires env.events[r].callbacks == [Callback.Resume(p)]
    requires Processes.IsProcess(env, p)
    requires var k := env.events[p].kind;
      k.cursor + 1 < |k.body| && k.body[k.cursor].pre == [] && k.body[k.cursor].target == r
    ensures var f := Fire(env, r);
      && f.raised == None
      && f.env.events[r].callbacks == [Callback.Resume(p), Callback.Resume(p)]
      && f.env.events[p].kind.cursor == env.events[p].kind.cursor + 1
      && f.env.queue == env.queue
  {
    var env1 := Update(env, r, Trigger(env.events[r]));
    var g := Processes.Resume(env1, p);
    assert RunCallbacks(env1, [Callback.Resume(p)], r) == g;
  }

  /** Firing a process whose next step has no code before its yield: it is
      triggered and alive, not yet processed, its continuation moves to the
      yielded event, and nothing is scheduled. */
  lemma FiringProcessStartsIt(env: Env, p: Ref)
    requires Processes.IsProcess(env, p) && !env.events[p].processed
    requires env.events[p].callbacks == [Callback.Resume(p)]
    requires var k := env.events[p].kind;
      k.cursor < |k.body| && k.body[k.cursor].pre == [] && k.body[k.cursor].target != p
      && k.body[k.cursor].target in env.events
    ensures var f := Fire(env, p);
            var k := env.events[p].kind;
            var t := k.body[k.cursor].target;
      && f.raised == None
      && f.env.events[p].triggered && f.env.events[p].kind.alive && !f.env.events[p].processed
      && f.env.events[p].kind.cursor == k.cursor + 1
      && f.env.events[t].callbacks == env.events[t].callbacks + [Callback.Resume(p)]
      && f.env.queue == env.queue
  {
    var env1 := Update(env, p, Trigger(env.events[p]));
    var g := Processes.Resume(env1, p);
    assert RunCallbacks(env1, [Callback.Resume(p)], p) == g;
  }

  /** Firing an exhausted process: processed and no longer alive, and its
      finished event is scheduled. */
  lemma FiringExhaustedProcessFinishes(env: Env, p: Ref)
    requires Processes.IsProcess(env, p)
    requires env.events[p].callbacks == [Callback.Resume(p)]
    requires var k := env.events[p].kind;
      k.cursor >= |k.body| && (k.cursor > |k.body| || k.epilogue == [])
      && k.finished != p && k.finished in env.events
    ensures var f := Fire(env, p);
      && f.raised == None
      && f.env.events[p].triggered && f.env.events[p].processed && !f.env.events[p].kind.alive
      && f.env.queue == env.queue + [env.events[p].kind.finished]
  {
    var env1 := Update(env, p, Trigger(env.events[p]));
    var g := Processes.Resume(env1, p);
    assert RunCallbacks(env1, [Callback.Resume(p)], p) == g;
  }

  /** AllOf succeeds from the last child to fire: isTriggered is set before
      the child's check runs, so when every other child is already
      triggered, firing the last one schedules the condition. */
  lemma AllOfSucceedsWhenLastChildFires(env: Env, c: Ref, child: Ref)
    requires c in env.events && env.events[c].kind.Condition? && env.events[c].kind.rule == AllOf
    requires child in env.events && child != c && !env.events[child].kind.Process?
    requires env.events[child].callbacks == [CondCheck(c, child)]
    requires forall k :: 0 <= k < |env.events[c].kind.children| && env.events[c].kind.children[k] != child ==>
      Conditions.Triggered(env.events, env.events[c].kind.children[k])
    ensures var f := Fire(env, child);
      f.raised == None && f.env.queue == env.queue + [c]
      && ValueOf(f.env.events[c]) == ValueOf(env.events[c])
  {
    var env1 := Update(env, child, Trigger(env.events[child]));
    Conditions.AllOfSucceedsOnLastChild(env, c, child);
    assert env1 == env.(events := env.events[child := env.events[child].(triggered := true)]);
    assert RunCallbacks(env1, [CondCheck(c, child)], child) == Fired(Conditions.Check(env1, c, child), None);
  }

  /** A process that yields a value event and reads its value once resumed
      gets what succeed stored: resuming the process does not touch the
      event's value. */
  lemma ValueSurvivesResumption(env: Env, r: Ref, p: Ref, v: Val)
    requires r in env.events && !env.events[r].kind.Process? && r != p
    requires env.events[r].callbacks == [Callback.Resume(p)]
    requires ValueOf(env.events[r]) == Some(v)
    requires Processes.IsProcess(env, p)
    requires var k := env.events[p].kind;
      k.cursor < |k.body| && k.body[k.cursor].pre == [] && k.body[k.cursor].target != r
    ensures var f := Fire(env, r);
      f.raised == None && ValueOf(f.env.events[r]) == Some(v)
  {
    var env1 := Update(env, r, Trigger(env.events[r]));
    var g := Processes.Resume(env1, p);
    assert RunCallbacks(env1, [Callback.Resume(p)], r) == g;
  }
}

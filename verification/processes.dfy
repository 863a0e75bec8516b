/** SimProcess (core/src/main/kotlin/process/SimProcess.kt): a process is an
    event whose body is a pull sequence of yielded events. Each pull runs the
    code before the next yield and attaches a `Resume` continuation to the
    yielded event; exhaustion runs the code after the last yield, marks the
    process processed and not alive, and succeeds its finished event. */
module Processes {
  import opened Basics
  import opened Events
  import opened State
  import ServerEvents

  /** The process kind of `pid`, if `pid` is a process. */
  predicate IsProcess(env: Env, pid: Ref) {
    pid in env.events && env.events[pid].kind.Process?
  }

  /** SimProcess construction: a fresh finished event, and the process event
      itself with exactly one callback, its own `Resume`. Nothing is scheduled. */
  function NewProcess(env: Env, body: seq<Step>, epilogue: seq<Action>): (a: Allocated)
    ensures IsProcess(a.env, a.ref)
    ensures a.env.events[a.ref].callbacks == [Callback.Resume(a.ref)]
    ensures a.env.events[a.ref].kind == Process(body, epilogue, 0, false, env.nextRef)
    ensures !a.env.events[a.ref].triggered && !a.env.events[a.ref].processed
    ensures env.nextRef in a.env.events && Fresh(a.env.events[env.nextRef])
    ensures Inv(env) ==> a.ref !in env.events && env.nextRef !in env.events
    ensures a.env.queue == env.queue
    ensures Evolves(env, a.env)
  {
    var f := Allocate(env, NewEvent(0, Normal, Plain).value);
    var p := NewEvent(0, Normal, Process(body, epilogue, 0, false, f.ref)).value;
    Allocate(f.env, p.(callbacks := [Callback.Resume(f.env.nextRef)]))
  }

  /** Process code between yields leaves every event's flags, kind and
      callbacks as they were: it may schedule, succeed or record, but not
      fire an event or attach a continuation. */
  ghost predicate KeepsFlags(env: Env, env': Env) {
    forall x :: x in env.events ==>
      && x in env'.events
      && env'.events[x].triggered == env.events[x].triggered
      && env'.events[x].processed == env.events[x].processed
      && env'.events[x].kind == env.events[x].kind
      && env'.events[x].callbacks == env.events[x].callbacks
  }

  /** Every event of `env` other than `a` and `b` is still there, unchanged. */
  ghost predicate OthersUntouched(env: Env, env': Env, a: Ref, b: Ref) {
    forall x :: x in env.events && x != a && x != b ==> x in env'.events && env'.events[x] == env.events[x]
  }

  /** One piece of process code between yields. */
  function RunAction(env: Env, act: Action, pid: Ref): (f: Fired)
    ensures f.raised.Some? ==> f.raised == Some(Raised(InvalidServerAction)) && f.env == env
    ensures !act.ServerAction? ==> f.raised == None
    ensures act.ScheduleEvent? ==> f == Fired(Schedule(env, act.event), None)
    ensures Evolves(env, f.env) && KeepsFlags(env, f.env)
  {
    match act
    case ScheduleEvent(e) => Fired(Schedule(env, e), None)
    case SucceedValue(e, v) => Fired(SucceedWith(env, e, v), None)
    case ServerAction(s, p) =>
      var r := ServerEvents.ServerAction(env, s, pid, p);
      if r.Ok? then Fired(r.value, None) else Fired(env, Some(Raised(r.error)))
    case Record(tag) => Fired(Log(env, tag, pid), None)
  }

  /** The code before a yield (or after the last one), stopping at the first
      error it raises. */
  function RunActions(env: Env, acts: seq<Action>, pid: Ref): (f: Fired)
    ensures f.raised.Some? ==> f.raised == Some(Raised(InvalidServerAction))
    ensures acts == [] ==> f == Fired(env, None)
    ensures Evolves(env, f.env) && KeepsFlags(env, f.env)
    decreases |acts|
  {
    if acts == [] then Fired(env, None)
    else
      var f := RunAction(env, acts[0], pid);
      if f.raised.Some? then f else RunActions(f.env, acts[1..], pid)
  }

  /** Count one more pull on the process record. */
  function Advance(env: Env, pid: Ref): (env': Env)
    ensures IsProcess(env, pid) ==>
      env'.events == env.events[pid := env.events[pid].(kind := env.events[pid].kind.(cursor := env.events[pid].kind.cursor + 1))]
    ensures !IsProcess(env, pid) ==> env' == env
    ensures env'.(events := env.events) == env
    ensures Evolves(env, env')
  {
    if !IsProcess(env, pid) then env
    else
      var e := env.events[pid];
      Update(env, pid, e.(kind := e.kind.(cursor := e.kind.cursor + 1)))
  }

  /** Exhaustion: isProcessed = true, isAlive = false, then
      processFinishedEvent.succeed(). */
  function Finish(env: Env, pid: Ref): (env': Env)
    requires IsProcess(env, pid)
    ensures IsProcess(env', pid)
    ensures env'.events[pid].processed && !env'.events[pid].kind.alive
    ensures env'.events[pid].kind.cursor == |env.events[pid].kind.body| + 1
    ensures env'.events[pid].callbacks == env.events[pid].callbacks
    ensures env.events[pid].kind.finished != pid && env.events[pid].kind.finished in env.events ==>
      env'.queue == env.queue + [env.events[pid].kind.finished]
    ensures env.events[pid].kind.finished !in env.events ==> env'.queue == env.queue
    ensures OthersUntouched(env, env', pid, env.events[pid].kind.finished)
    ensures Evolves(env, env')
  {
    var e := env.events[pid];
    var done := e.(processed := true, kind := e.kind.(alive := false, cursor := |e.kind.body| + 1));
    Schedule(Update(env, pid, done), e.kind.finished)
  }

  /** The yield itself: count the pull and append this process's `Resume`
      continuation to the yielded event `t`; nothing is scheduled. */
  function Attach(env: Env, pid: Ref, t: Ref): (env': Env)
    requires IsProcess(env, pid)
    ensures Evolves(env, env')
    ensures IsProcess(env', pid)
    ensures env'.events[pid].kind == env.events[pid].kind.(cursor := env.events[pid].kind.cursor + 1)
    ensures env'.events[pid].processed == env.events[pid].processed
    ensures env'.events[pid].triggered == env.events[pid].triggered
    ensures env'.queue == env.queue
    ensures t in env.events ==> t in env'.events && env'.events[t].callbacks == env.events[t].callbacks + [Callback.Resume(pid)]
    ensures OthersUntouched(env, env', pid, t)
  {
    var e1 := Advance(env, pid);
    var k := env.events[pid].kind;
    assert e1.events[pid] == env.events[pid].(kind := k.(cursor := k.cursor + 1));
    assert e1.queue == env.queue;
    assert t in env.events ==> t in e1.events && e1.events[t].callbacks == env.events[t].callbacks;
    AppendTo(e1, t, Callback.Resume(pid))
  }

  /** The pull half of resume(): run the code before the next yield, then
      attach `Resume(pid)` to the yielded event without scheduling it. */
  function Pull(env: Env, pid: Ref): (f: Fired)
    requires IsProcess(env, pid) && env.events[pid].kind.cursor < |env.events[pid].kind.body|
    ensures Evolves(env, f.env)
    ensures f.raised.Some? ==> f.raised == Some(Raised(InvalidServerAction))
    ensures f.raised == None ==>
      && IsProcess(f.env, pid)
      && f.env.events[pid].kind == env.events[pid].kind.(cursor := env.events[pid].kind.cursor + 1)
      && f.env.events[pid].processed == env.events[pid].processed
      && f.env.events[pid].triggered == env.events[pid].triggered
    // the code before the yield runs first; what it raises is what the pull raises
    ensures var k := env.events[pid].kind;
            var g := RunActions(env, k.body[k.cursor].pre, pid);
      && f.raised == g.raised
      && (f.raised == None ==> f.env.queue == g.env.queue && f.env.trace == g.env.trace
                               && f.env.stores == g.env.stores && f.env.servers == g.env.servers)
    // then the continuation is attached to the yielded event
    ensures var k := env.events[pid].kind;
            var t := k.body[k.cursor].target;
      f.raised == None && t in env.events ==>
        t in f.env.events && f.env.events[t].callbacks == env.events[t].callbacks + [Callback.Resume(pid)]
    // no other event is touched beyond what that code did
    ensures var k := env.events[pid].kind;
            var g := RunActions(env, k.body[k.cursor].pre, pid);
            var t := k.body[k.cursor].target;
      f.raised == None ==> OthersUntouched(g.env, f.env, pid, t)
  {
    var k := env.events[pid].kind;
    var step := k.body[k.cursor];
    var f := RunActions(env, step.pre, pid);
    if f.raised.Some? then f
    else
      assert f.env.events[pid].kind == k;
      Fired(Attach(f.env, pid, step.target), None)
  }

  /** The exhaustion half of resume(): run the code after the last yield
      (once), then finish. */
  function Exhaust(env: Env, pid: Ref): (f: Fired)
    requires IsProcess(env, pid) && env.events[pid].kind.cursor >= |env.events[pid].kind.body|
    ensures Evolves(env, f.env)
    ensures f.raised.Some? ==> f.raised == Some(Raised(InvalidServerAction))
    ensures f.raised == None ==>
      IsProcess(f.env, pid) && f.env.events[pid].processed && !f.env.events[pid].kind.alive
    ensures env.events[pid].kind.cursor > |env.events[pid].kind.body| || env.events[pid].kind.epilogue == [] ==>
      var k := env.events[pid].kind;
      f.raised == None && (k.finished != pid && k.finished in env.events ==> f.env.queue == env.queue + [k.finished])
    // on the first exhaustion the code after the last yield runs, then the
    // finished event is queued behind whatever that code scheduled
    ensures env.events[pid].kind.cursor == |env.events[pid].kind.body| ==>
      var k := env.events[pid].kind;
      var g := RunActions(env, k.epilogue, pid);
      && f.raised == g.raised
      && (f.raised == None ==> f.env.trace == g.env.trace && f.env.stores == g.env.stores && f.env.servers == g.env.servers)
      && (f.raised == None && k.finished != pid && k.finished in env.events ==> f.env.queue == g.env.queue + [k.finished])
    // no other event is touched beyond what the code after the last yield
    // did (there is no such code on a later exhaustion)
    ensures var k := env.events[pid].kind;
            var g := RunActions(env, if k.cursor == |k.body| then k.epilogue else [], pid);
      f.raised == None ==> OthersUntouched(g.env, f.env, pid, k.finished)
  {
    var k := env.events[pid].kind;
    var f := if k.cursor == |k.body| then RunActions(env, k.epilogue, pid) else Fired(env, None);
    if f.raised.Some? then f else Fired(Finish(f.env, pid), None)
  }

  /** resume(): pull the next yielded event and attach `Resume(pid)` to it
      without scheduling it; or, once the sequence is exhausted, finish. */
  function Resume(env: Env, pid: Ref): (f: Fired)
    ensures f.raised.Some? ==> f.raised == Some(Raised(InvalidServerAction))
    ensures !IsProcess(env, pid) ==> f == Fired(env, None)
    // pulling a yield: the process stays as it was, one pull further on
    ensures IsProcess(env, pid) && env.events[pid].kind.cursor < |env.events[pid].kind.body| && f.raised == None ==>
      && IsProcess(f.env, pid)
      && f.env.events[pid].kind == env.events[pid].kind.(cursor := env.events[pid].kind.cursor + 1)
      && f.env.events[pid].processed == env.events[pid].processed
      && f.env.events[pid].triggered == env.events[pid].triggered
    // pulling a yield with no code before it: only the continuation is attached
    ensures IsProcess(env, pid) && env.events[pid].kind.cursor < |env.events[pid].kind.body|
            && env.events[pid].kind.body[env.events[pid].kind.cursor].pre == [] ==>
      var k := env.events[pid].kind;
      var t := k.body[k.cursor].target;
      && f.raised == None
      && f.env.queue == env.queue
      && (t in env.events ==> t in f.env.events && f.env.events[t].callbacks == env.events[t].callbacks + [Callback.Resume(pid)])
    // pulling a yield with code before it: that code runs first, then the
    // continuation is attached to the yielded event
    ensures IsProcess(env, pid) && env.events[pid].kind.cursor < |env.events[pid].kind.body| ==>
      var k := env.events[pid].kind;
      var g := RunActions(env, k.body[k.cursor].pre, pid);
      var t := k.body[k.cursor].target;
      && f.raised == g.raised
      && (f.raised == None ==> f.env.queue == g.env.queue && f.env.trace == g.env.trace)
      && (f.raised == None && t in env.events ==>
            t in f.env.events && f.env.events[t].callbacks == env.events[t].callbacks + [Callback.Resume(pid)])
    // exhaustion: processed and no longer alive; the finished event is
    // scheduled (immediately when there is no code after the last yield)
    ensures IsProcess(env, pid) && env.events[pid].kind.cursor >= |env.events[pid].kind.body| && f.raised == None ==>
      IsProcess(f.env, pid) && f.env.events[pid].processed && !f.env.events[pid].kind.alive
    ensures IsProcess(env, pid) && env.events[pid].kind.cursor >= |env.events[pid].kind.body|
            && (env.events[pid].kind.cursor > |env.events[pid].kind.body| || env.events[pid].kind.epilogue == []) ==>
      var k := env.events[pid].kind;
      f.raised == None && (k.finished != pid && k.finished in env.events ==> f.env.queue == env.queue + [k.finished])
    // the first exhaustion runs the code after the last yield before the
    // finished event is queued
    ensures IsProcess(env, pid) && env.events[pid].kind.cursor == |env.events[pid].kind.body| ==>
      var k := env.events[pid].kind;
      var g := RunActions(env, k.epilogue, pid);
      && f.raised == g.raised
      && (f.raised == None ==> f.env.trace == g.env.trace)
      && (f.raised == None && k.finished != pid && k.finished in env.events ==> f.env.queue == g.env.queue + [k.finished])
    // in either branch, no event other than the process, the yielded event
    // and the finished event is touched beyond what the process code did
    ensures IsProcess(env, pid) && env.events[pid].kind.cursor < |env.events[pid].kind.body| ==>
      var k := env.events[pid].kind;
      var g := RunActions(env, k.body[k.cursor].pre, pid);
      var t := k.body[k.cursor].target;
      f.raised == None ==> OthersUntouched(g.env, f.env, pid, t)
    ensures IsProcess(env, pid) && env.events[pid].kind.cursor >= |env.events[pid].kind.body| ==>
      var k := env.events[pid].kind;
      var g := RunActions(env, if k.cursor == |k.body| then k.epilogue else [], pid);
      f.raised == None ==> OthersUntouched(g.env, f.env, pid, k.finished)
    ensures Evolves(env, f.env)
  {
    if !IsProcess(env, pid) then Fired(env, None)
    else if env.events[pid].kind.cursor < |env.events[pid].kind.body| then Pull(env, pid)
    else Exhaust(env, pid)
  }

  /** The step of the timing property: a process that schedules a timeout
      and yields it gets its continuation on that timeout, which is due
      exactly its delay after the current time. */
  lemma TimeoutResumesAfterDelay(env: Env, pid: Ref, t: Ref)
    requires IsProcess(env, pid) && t in env.events && t != pid
    requires var k := env.events[pid].kind;
      k.cursor < |k.body| && k.body[k.cursor] == Step([ScheduleEvent(t)], t)
    ensures var f := Resume(env, pid);
      && f.raised == None
      && f.env.queue == env.queue + [t]
      && f.env.events[t].due == env.now + env.events[t].delay
      && f.env.events[t].callbacks == env.events[t].callbacks + [Callback.Resume(pid)]
      && f.env.events[pid].kind.cursor == env.events[pid].kind.cursor + 1
  {
    var k := env.events[pid].kind;
    var g := RunActions(env, [ScheduleEvent(t)], pid);
    assert g == RunActions(Schedule(env, t), [], pid);
  }
}

/** The Environment (core/src/main/kotlin/Environment.kt): construction with
    its termination event, timeout, the process overloads, scheduling a list,
    step, the simulation loop and the two `run` entry points. */
module Environment {
  import opened Basics
  import opened Events
  import opened State
  import Ordering
  import Processes
  import Firing

  /** TerminationEvent(env, 0.0): delay 0, HIGH priority, and exactly one
      callback, which raises the stop signal. */
  function TerminationEvent(): (e: Event)
    ensures e.delay == 0 && e.priority == High && e.kind == Termination
    ensures e.callbacks == [Stop]
    ensures !e.triggered && !e.processed && e.id == None && ValueOf(e) == None
  {
    NewEvent(0, High, Termination).value.(callbacks := [Stop])
  }

  /** Environment(now): a negative start time is rejected before anything
      exists; otherwise the clock starts at `now`, the queue is empty and the
      termination event is allocated but not scheduled. */
  function NewEnvironment(now: int): (r: Result<Env>)
    ensures r.Err? <==> now < 0
    ensures r.Err? ==> r.error == InvalidArgument
    ensures r.Ok? ==> Inv(r.value) && r.value.now == now && r.value.queue == []
    ensures r.Ok? ==> r.value.termination in r.value.events
                      && r.value.events[r.value.termination] == TerminationEvent()
    ensures r.Ok? ==> r.value.stores == [] && r.value.servers == [] && r.value.trace == []
  {
    if now < 0 then Err(InvalidArgument)
    else Ok(Env(now, map[0 := TerminationEvent()], [], 1, 0, [], [], 0, []))
  }

  /** timeout(d): a new plain event with delay `d`, scheduled, due at now + d. */
  function Timeout(env: Env, d: int): (r: Result<Allocated>)
    ensures r.Err? <==> d < 0
    ensures r.Err? ==> r.error == InvalidArgument
    ensures r.Ok? ==> Evolves(env, r.value.env)
    ensures r.Ok? ==> r.value.ref == env.nextRef && r.value.ref in r.value.env.events
    ensures r.Ok? ==> r.value.env.events[r.value.ref].due == env.now + d
    ensures r.Ok? ==> r.value.env.queue == env.queue + [r.value.ref]
    ensures r.Ok? ==> r.value.env.events[r.value.ref].id == Some(env.nextId)
  {
    match NewEvent(d, Normal, Plain)
    case Err(e) => Err(e)
    case Ok(e) =>
      var a := Allocate(env, e);
      Ok(Allocated(Schedule(a.env, a.ref), a.ref))
  }

  /** schedule(vararg events): schedule each in argument order; the result
      lists the same events. */
  function ScheduleAll(env: Env, rs: seq<Ref>): (r: (Env, seq<Ref>))
    ensures r.1 == rs
    ensures Evolves(env, r.0)
    decreases |rs|
  {
    if rs == [] then (env, [])
    else (ScheduleAll(Schedule(env, rs[0]), rs[1..]).0, rs)
  }

  /** Scheduling a list queues exactly its events, in argument order, and
      hands out one id per event. */
  lemma {:induction false} ScheduleAllQueues(env: Env, rs: seq<Ref>)
    requires Ordering.Known(rs, env.events)
    ensures ScheduleAll(env, rs).0.queue == env.queue + rs
    ensures ScheduleAll(env, rs).0.nextId == env.nextId + |rs|
    decreases |rs|
  {
    if rs != [] {
      var env1 := Schedule(env, rs[0]);
      var rest := rs[1..];
      forall k | 0 <= k < |rest| ensures rest[k] in env1.events {
        assert rest[k] == rs[k + 1];
      }
      ScheduleAllQueues(env1, rest);
      assert env1.queue == env.queue + [rs[0]];
      AppendAssoc(env.queue, [rs[0]], rest);
      assert [rs[0]] + rest == rs;
    }
  }

  /** process(p: SimProcess): schedule the process and hand back its
      finished event. */
  function ProcessOf(env: Env, p: Ref): (r: (Env, Ref))
    requires Processes.IsProcess(env, p)
    ensures r.1 == env.events[p].kind.finished
    ensures r.0 == Schedule(env, p) && r.0.queue == env.queue + [p]
    ensures Evolves(env, r.0)
  {
    (Schedule(env, p), env.events[p].kind.finished)
  }

  /** process(sequence): build the process, then as above. */
  function ProcessBody(env: Env, body: seq<Step>, epilogue: seq<Action>): (r: (Env, Ref))
    ensures Evolves(env, r.0)
    ensures r.1 == env.nextRef && r.1 in r.0.events && Fresh(r.0.events[r.1])
    ensures env.nextRef + 1 in r.0.events
    ensures r.0.queue == env.queue + [env.nextRef + 1]
  {
    var a := Processes.NewProcess(env, body, epilogue);
    ProcessOf(a.env, a.ref)
  }

  /** process(vararg processes): schedule each, and return the processes
      themselves, not their finished events. */
  function ProcessAll(env: Env, ps: seq<Ref>): (r: (Env, seq<Ref>))
    requires forall k :: 0 <= k < |ps| ==> Processes.IsProcess(env, ps[k])
    ensures r.1 == ps
    ensures r.0.queue == env.queue + ps
    ensures Evolves(env, r.0)
  {
    assert Ordering.Known(ps, env.events) by {
      forall k | 0 <= k < |ps| ensures ps[k] in env.events {
        assert Processes.IsProcess(env, ps[k]);
      }
    }
    ScheduleAllQueues(env, ps);
    ScheduleAll(env, ps)
  }

  /** The single-process overload returns what the list overload does not:
      the finished event, never the process itself. */
  lemma ProcessOverloadsDisagree(env: Env, body: seq<Step>, epilogue: seq<Action>)
    requires Inv(env)
    ensures var a := Processes.NewProcess(env, body, epilogue);
      ProcessOf(a.env, a.ref).1 != a.ref && ProcessAll(a.env, [a.ref]).1 == [a.ref]
  {
  }

  /** One pass of the loop body: what firing did, the event fired, and the
      queue position it was taken from. */
  datatype Stepped = Stepped(fired: Fired, event: Ref, at: nat)

  /** Remove queue entry `i`, which is not after any other entry, and move
      the clock to its due time; the state stays well formed. */
  function Pop(env: Env, i: nat): (popped: Env)
    requires Inv(env) && i < |env.queue|
    requires forall k :: 0 <= k < |env.queue| ==> Ordering.NotAfter(env.events[env.queue[i]], env.events[env.queue[k]])
    ensures popped == env.(now := env.events[env.queue[i]].due, queue := env.queue[..i] + env.queue[i + 1..])
    ensures Inv(popped)
  {
    var ev := env.queue[i];
    var rest := env.queue[..i] + env.queue[i + 1..];
    assert forall k :: 0 <= k < |rest| ==> rest[k] in env.queue;
    var popped := env.(now := env.events[ev].due, queue := rest);
    assert Inv(popped) by {
      forall k | 0 <= k < |rest| ensures env.events[rest[k]].due >= env.events[ev].due {
        var j :| 0 <= j < |env.queue| && env.queue[j] == rest[k];
        assert Ordering.NotAfter(env.events[ev], env.events[env.queue[j]]);
      }
    }
    popped
  }

  /** step(): EmptySchedule on an empty queue; otherwise remove an entry
      minimal in the due-time/priority order, set the clock to its due time
      and fire it. The clock never moves backwards. */
  function Step(env: Env): (r: Result<Stepped>)
    requires Inv(env)
    ensures r.Err? <==> env.queue == []
    ensures r.Err? ==> r.error == EmptySchedule
    ensures r.Ok? ==> r.value.event in env.events && r.value.event in env.queue
    ensures r.Ok? ==> forall k :: 0 <= k < |env.queue| ==>
      Ordering.NotAfter(env.events[r.value.event], env.events[env.queue[k]])
    ensures r.Ok? ==> r.value.fired.env.now == env.events[r.value.event].due >= env.now
    ensures r.Ok? ==> Inv(r.value.fired.env)
    ensures r.Ok? && r.value.fired.raised == Some(StopSignal) ==> Stop in env.events[r.value.event].callbacks
    // the chosen entry leaves the queue (only that occurrence), and the event is
    // fired on the state with the clock at its due time
    ensures r.Ok? ==> r.value.at < |env.queue| && env.queue[r.value.at] == r.value.event
    ensures r.Ok? ==> r.value.fired == Firing.Fire(env.(now := env.events[r.value.event].due,
                        queue := env.queue[..r.value.at] + env.queue[r.value.at + 1..]), r.value.event)
    ensures r.Ok? ==> r.value.fired.env.nextId >= env.nextId && r.value.fired.env.nextRef >= env.nextRef
  {
    if env.queue == [] then Err(EmptySchedule)
    else
      var i := Ordering.MinIndex(env.queue, env.events);
      var ev := env.queue[i];
      Ok(Stepped(Firing.Fire(Pop(env, i), ev), ev, i))
  }

  /** Of two entries due at the same time, the HIGH one fires first,
      whichever was queued first. */
  lemma HighFiresBeforeNormal(env: Env, a: Ref, b: Ref)
    requires Inv(env) && (env.queue == [a, b] || env.queue == [b, a]) && a in env.events && b in env.events
    requires env.events[a].due == env.events[b].due
    requires env.events[a].priority == Normal && env.events[b].priority == High
    ensures Step(env).Ok? && Step(env).value.event == b
  {
    var s := Step(env).value;
    assert Ordering.NotAfter(env.events[s.event], env.events[b]);
  }

  /** How a run ends: the stop signal, an error escaping the loop, or the
      step budget running out (the source loops without bound). */
  datatype RunOutcome = Stopped(env: Env) | Failed(env: Env, error: Error) | OutOfFuel(env: Env)

  /** simulationLoop: step until the stop signal; any other raise escapes. */
  function Loop(env: Env, fuel: nat): (o: RunOutcome)
    requires Inv(env)
    ensures Inv(o.env) && o.env.now >= env.now && o.env.nextId >= env.nextId
    ensures env.queue == [] && fuel > 0 ==> o == Failed(env, EmptySchedule)
    ensures o.Failed? ==> o.error == EmptySchedule || o.error == InvalidServerAction
    ensures o.Stopped? ==> fuel > 0 && env.queue != []
    // the loop ends normally exactly on the stop signal, and any other raise escapes
    ensures fuel > 0 && env.queue != [] && Step(env).value.fired.raised == Some(StopSignal) ==>
      o == Stopped(Step(env).value.fired.env)
    ensures fuel > 0 && env.queue != [] && Step(env).value.fired.raised.Some?
            && Step(env).value.fired.raised != Some(StopSignal) ==>
      o == Failed(Step(env).value.fired.env, InvalidServerAction)
    decreases fuel
  {
    if fuel == 0 then OutOfFuel(env)
    else
      match Step(env)
      case Err(e) => Failed(env, e)
      case Ok(s) =>
        if s.fired.raised == Some(StopSignal) then Stopped(s.fired.env)
        else if s.fired.raised.Some? then Failed(s.fired.env, s.fired.raised.value.error)
        else Loop(s.fired.env, fuel - 1)
  }

  /** The loop's `n + 1`-th pass raises the stop signal after `n` passes
      that each popped an entry and fired it without raising. */
  predicate StopsAt(env: Env, n: nat)
    requires Inv(env)
    decreases n
  {
    && env.queue != []
    && var s := Step(env).value;
       if n == 0 then s.fired.raised == Some(StopSignal)
       else s.fired.raised == None && StopsAt(s.fired.env, n - 1)
  }

  /** The loop ends normally only when, within the step budget, a run of
      quiet passes is followed by one that raises the stop signal. */
  lemma {:induction false} LoopStopsOnlyOnStopSignal(env: Env, fuel: nat)
    requires Inv(env)
    ensures Loop(env, fuel).Stopped? ==> exists n: nat :: n < fuel && StopsAt(env, n)
    decreases fuel
  {
    if fuel > 0 && env.queue != [] {
      var s := Step(env).value;
      if s.fired.raised == Some(StopSignal) {
        StopsAtFirstPass(env);
      } else if s.fired.raised == None {
        LoopAfterQuietStep(env, fuel);
        LoopStopsOnlyOnStopSignal(s.fired.env, fuel - 1);
        if Loop(env, fuel).Stopped? {
          var m: nat :| m < fuel - 1 && StopsAt(s.fired.env, m);
          StopsAtLaterPass(env, m);
        }
      }
    }
  }

  /** A first pass raising the stop signal is a stopping pass. */
  lemma StopsAtFirstPass(env: Env)
    requires Inv(env) && env.queue != [] && Step(env).value.fired.raised == Some(StopSignal)
    ensures StopsAt(env, 0)
  {
  }

  /** A quiet pass followed by a stop after `m` more passes stops after `m + 1`. */
  lemma StopsAtLaterPass(env: Env, m: nat)
    requires Inv(env) && env.queue != [] && Step(env).value.fired.raised == None
    requires StopsAt(Step(env).value.fired.env, m)
    ensures StopsAt(env, m + 1)
  {
  }

  /** A step that raises nothing hands its state to the next pass of the loop. */
  lemma LoopAfterQuietStep(env: Env, fuel: nat)
    requires Inv(env) && fuel > 0 && env.queue != [] && Step(env).value.fired.raised == None
    ensures Loop(env, fuel) == Loop(Step(env).value.fired.env, fuel - 1)
  {
  }

  /** A quiet step that empties the queue leaves the next pass nothing to pop. */
  lemma LoopFailsOnceDrained(env: Env, fuel: nat)
    requires Inv(env) && fuel >= 2 && env.queue != []
    requires Step(env).value.fired.raised == None && Step(env).value.fired.env.queue == []
    ensures Loop(env, fuel) == Failed(Step(env).value.fired.env, EmptySchedule)
  {
    LoopAfterQuietStep(env, fuel);
  }

  /** The watcher process of run(untilEvent): wait for `e`, then succeed the
      termination event. */
  function Watcher(env: Env, e: Ref): (a: Allocated)
    ensures Evolves(env, a.env)
    ensures Processes.IsProcess(a.env, a.ref) && a.ref == env.nextRef + 1
    ensures a.env.events[a.ref].kind == Process([Events.Step([], e)], [ScheduleEvent(env.termination)], 0, false, env.nextRef)
    ensures a.env.events[a.ref].callbacks == [Callback.Resume(a.ref)]
    ensures a.env.queue == env.queue
  {
    Processes.NewProcess(env, [Events.Step([], e)], [ScheduleEvent(env.termination)])
  }

  /** The watcher's second resumption, once the until-event has fired: the
      code after its only yield succeeds the termination event, which is
      queued due now, and then the watcher's own finished event follows. */
  lemma WatcherSucceedsTermination(env: Env, w: Ref, e: Ref)
    requires Processes.IsProcess(env, w)
    requires var k := env.events[w].kind;
      k.body == [Events.Step([], e)] && k.epilogue == [ScheduleEvent(env.termination)] && k.cursor == 1
      && k.finished != w && k.finished in env.events
    requires env.termination in env.events && env.events[env.termination].delay == 0
    ensures var f := Processes.Resume(env, w);
      && f.raised == None
      && f.env.queue == env.queue + [env.termination, env.events[w].kind.finished]
      && f.env.events[env.termination].due == env.now
      && f.env.events[w].processed && !f.env.events[w].kind.alive
  {
    var k := env.events[w].kind;
    var g := Processes.RunActions(env, k.epilogue, w);
    assert g == Processes.RunActions(Schedule(env, env.termination), [], w);
  }

  /** run(untilEvent): schedule the watcher, then loop. */
  function RunUntilEvent(env: Env, e: Ref, fuel: nat): (o: RunOutcome)
    requires Inv(env)
    ensures Inv(o.env) && o.env.now >= env.now && o.env.nextId >= env.nextId
  {
    var w := Watcher(env, e);
    Loop(Schedule(w.env, w.ref), fuel)
  }

  /** run(until): `until` must be positive; a timeout of `until` is
      scheduled and run on as the until-event. A rejected call changes
      nothing. */
  function RunUntil(env: Env, until: int, fuel: nat): (r: Result<RunOutcome>)
    requires Inv(env)
    ensures r.Err? <==> until <= 0
    ensures r.Err? ==> r.error == InvalidArgument
    ensures r.Ok? ==> Inv(r.value.env) && r.value.env.now >= env.now && r.value.env.nextId >= env.nextId
  {
    if until <= 0 then Err(InvalidArgument)
    else
      var t := Timeout(env, until).value;
      Ok(RunUntilEvent(t.env, t.ref, fuel))
  }

  /** With a single entry queued, step pops it. */
  lemma StepPopsOnlyEntry(env: Env, x: Ref)
    requires Inv(env) && env.queue == [x]
    ensures x in env.events
    ensures Step(env) == Ok(Stepped(Firing.Fire(env.(now := env.events[x].due, queue := []), x), x, 0))
  {
    assert env.queue[0] == x && x in env.events;
    assert Ordering.MinIndex(env.queue, env.events) == 0;
    assert env.queue[..0] + env.queue[0 + 1..] == [];
    assert Pop(env, 0) == env.(now := env.events[x].due, queue := []);
  }

  /** The first step of run(untilEvent) on an empty queue pops the watcher,
      which attaches itself to the until-event and schedules nothing. */
  lemma WatcherStartsOnEmptyQueue(env: Env, e: Ref)
    requires Inv(env) && env.queue == [] && e in env.events
    ensures var w := Watcher(env, e);
            var env1 := Schedule(w.env, w.ref);
      && Inv(env1) && Step(env1).Ok?
      && Step(env1).value.fired.raised == None
      && Step(env1).value.fired.env.queue == []
  {
    var w := Watcher(env, e);
    var env1 := Schedule(w.env, w.ref);
    assert env1.queue == [w.ref];
    StepPopsOnlyEntry(env1, w.ref);
    var popped := env1.(now := env1.events[w.ref].due, queue := []);
    assert e != w.ref && e in popped.events;
    assert Step(env1) == Ok(Stepped(Firing.Fire(popped, w.ref), w.ref, 0));
    assert Processes.IsProcess(popped, w.ref);
    assert popped.events[w.ref].callbacks == [Callback.Resume(w.ref)];
    assert popped.events[w.ref].kind == w.env.events[w.ref].kind && !popped.events[w.ref].processed;
    Firing.FiringProcessStartsIt(popped, w.ref);
  }

  /** A run on an event that is never scheduled ends in EmptySchedule: the
      watcher starts, attaches itself to the event, and the queue runs dry. */
  lemma RunOnUnscheduledEventFails(env: Env, e: Ref, fuel: nat)
    requires Inv(env) && env.queue == [] && e in env.events && fuel >= 2
    ensures RunUntilEvent(env, e, fuel).Failed?
    ensures RunUntilEvent(env, e, fuel).error == EmptySchedule
  {
    var w := Watcher(env, e);
    var env1 := Schedule(w.env, w.ref);
    WatcherStartsOnEmptyQueue(env, e);
    LoopFailsOnceDrained(env1, fuel);
  }
}

/** The environment's state (core/src/main/kotlin/Environment.kt) and the
    primitive transitions every other module builds on: allocation,
    `schedule`, field updates, and ValueEvent succeed/expire. */
module State {
  import opened Basics
  import opened Events
  import Stores
  import Servers
  import Ordering

  /** A record left by caller-written code (an `Observe` callback or a
      `Record` action): which tag ran, for which event, at what time. */
  datatype Observation = Observation(tag: nat, event: Ref, time: int)

  /** The environment: the clock, the event table, the queue of pending
      firings in insertion order, the allocation and id counters, the
      resources, the single termination event, and the observation trace.
      The id counter is a field here rather than a process-wide global. */
  datatype Env = Env(
    now: int,
    events: map<Ref, Event>,
    queue: seq<Ref>,
    nextRef: Ref,
    nextId: nat,
    stores: seq<Stores.Store<int>>,
    servers: seq<Servers.Server>,
    termination: Ref,
    trace: seq<Observation>)

  /** Why a firing stopped early: the termination callback's stop signal,
      or an error raised by process code. */
  datatype Signal = StopSignal | Raised(error: Error)

  /** The state after running code that may raise. */
  datatype Fired = Fired(env: Env, raised: Option<Signal>)

  /** A fresh object and the state that holds it. */
  datatype Allocated = Allocated(env: Env, ref: Ref)

  /** Well-formedness of reachable states: references are allocated below
      `nextRef`, ids handed out are below `nextId`, every queued reference
      names an event, and nothing queued is due before `now`. */
  ghost predicate Inv(env: Env) {
    && (forall r :: r in env.events ==> r < env.nextRef)
    && (forall r :: r in env.events && env.events[r].id.Some? ==> env.events[r].id.value < env.nextId)
    && Ordering.Known(env.queue, env.events)
    && (forall k :: 0 <= k < |env.queue| ==> env.events[env.queue[k]].due >= env.now)
  }

  /** What every transition inside one firing guarantees: the clock stands
      still, counters only grow, no event disappears, the trace only grows,
      and well-formedness is kept. */
  ghost predicate Evolves(env: Env, env': Env) {
    && env'.now == env.now
    && env'.nextId >= env.nextId
    && env'.nextRef >= env.nextRef
    && env.events.Keys <= env'.events.Keys
    && env'.termination == env.termination
    && env.trace <= env'.trace
    && |env'.stores| == |env.stores|
    && |env'.servers| == |env.servers|
    && (Inv(env) ==> Inv(env'))
  }

  /** Put a new object into the table under the next free reference. */
  function Allocate(env: Env, e: Event): (a: Allocated)
    requires e.id == None
    ensures a.ref == env.nextRef && a.env.nextRef == env.nextRef + 1
    ensures Inv(env) ==> a.ref !in env.events
    ensures a.env.events == env.events[a.ref := e]
    ensures a.env.(events := env.events, nextRef := env.nextRef) == env
    ensures Evolves(env, a.env)
  {
    Allocated(env.(events := env.events[env.nextRef := e], nextRef := env.nextRef + 1), env.nextRef)
  }

  /** schedule: due time = now + delay, a fresh id, appended to the queue.
      Nothing else changes. Scheduling an event again queues it again. */
  function Schedule(env: Env, r: Ref): (env': Env)
    ensures r !in env.events ==> env' == env
    ensures r in env.events ==>
      && r in env'.events
      && env'.events[r].due == env.now + env.events[r].delay
      && env'.events[r].id == Some(env.nextId)
      && env'.events[r].(due := env.events[r].due, id := env.events[r].id) == env.events[r]
      && (forall x :: x in env.events && x != r ==> x in env'.events && env'.events[x] == env.events[x])
      && env'.events.Keys == env.events.Keys
      && env'.queue == env.queue + [r]
      && env'.nextId == env.nextId + 1
      && env'.(events := env.events, queue := env.queue, nextId := env.nextId) == env
    ensures Evolves(env, env')
  {
    if r !in env.events then env
    else
      var e := env.events[r];
      env.(events := env.events[r := e.(due := env.now + e.delay, id := Some(env.nextId))],
           queue := env.queue + [r],
           nextId := env.nextId + 1)
  }

  /** Replace an event record, keeping the due time and id the queue relies on. */
  function Update(env: Env, r: Ref, e: Event): (env': Env)
    requires r in env.events && e.due == env.events[r].due && e.id == env.events[r].id
    ensures env'.events == env.events[r := e]
    ensures env'.(events := env.events) == env
    ensures Evolves(env, env')
  {
    env.(events := env.events[r := e])
  }

  /** appendCallback on the event `r`. */
  function AppendTo(env: Env, r: Ref, cb: Callback): (env': Env)
    ensures r !in env.events ==> env' == env
    ensures r in env.events ==>
      env'.events == env.events[r := env.events[r].(callbacks := env.events[r].callbacks + [cb])]
    ensures env'.(events := env.events) == env
    ensures Evolves(env, env')
  {
    if r !in env.events then env
    else Update(env, r, env.events[r].(callbacks := AppendCallback(env.events[r].callbacks, cb)))
  }

  /** ValueEvent.succeed(v): store the value and mark it AVAILABLE, then
      schedule the event. The value is readable at once, before the event
      fires, and any earlier status is overwritten. */
  function SucceedWith(env: Env, r: Ref, v: Val): (env': Env)
    ensures r !in env.events ==> env' == env
    ensures r in env.events ==>
      && r in env'.events
      && ValueOf(env'.events[r]) == Some(v)
      && env'.events[r].due == env.now + env.events[r].delay
      && env'.events[r].triggered == env.events[r].triggered
      && env'.events[r].processed == env.events[r].processed
      && env'.events[r].callbacks == env.events[r].callbacks
      && env'.events[r].kind == env.events[r].kind
      && env'.queue == env.queue + [r]
      && (forall x :: x in env.events && x != r ==> x in env'.events && env'.events[x] == env.events[x])
    ensures env'.stores == env.stores && env'.servers == env.servers && env'.trace == env.trace
    ensures Evolves(env, env')
  {
    if r !in env.events then env
    else Schedule(Update(env, r, SetValue(env.events[r], v)), r)
  }

  /** ValueEvent.expire() on the event `r`; nothing is scheduled. */
  function ExpireEvent(env: Env, r: Ref): (env': Env)
    ensures r !in env.events ==> env' == env
    ensures r in env.events ==>
      env'.events == env.events[r := Expire(env.events[r])] && ValueOf(env'.events[r]) == None
    ensures env'.(events := env.events) == env
    ensures Evolves(env, env')
  {
    if r !in env.events then env
    else Update(env, r, Expire(env.events[r]))
  }

  /** Caller-written code ran for event `r` at the current time. */
  function Log(env: Env, tag: nat, r: Ref): (env': Env)
    ensures env'.trace == env.trace + [Observation(tag, r, env.now)]
    ensures env'.(trace := env.trace) == env
    ensures Evolves(env, env')
  {
    env.(trace := env.trace + [Observation(tag, r, env.now)])
  }

  /** Scheduling never reuses an id: the new id exceeds every id already
      handed out. */
  lemma ScheduledIdIsFresh(env: Env, r: Ref, x: Ref)
    requires Inv(env) && r in env.events
    requires x in env.events && x != r && env.events[x].id.Some?
    ensures Schedule(env, r).events[r].id.value > env.events[x].id.value
  {
  }

  /** Ids handed out by successive schedule calls strictly increase, however
      much happens between the two calls, as long as the id counter never
      goes back (every transition inside a firing, every step and every run
      of the loop guarantees that). */
  lemma ScheduleIdsIncrease(env: Env, a: Ref, mid: Env, b: Ref)
    requires a in env.events
    requires mid.nextId >= Schedule(env, a).nextId && b in mid.events
    ensures Schedule(mid, b).events[b].id.value > Schedule(env, a).events[a].id.value
  {
  }
}

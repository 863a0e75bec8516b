/** The event record, its callback list and its value slot
    (EventBase, ValueEvent, SimProcess and Condition state, flattened into one
    record whose `kind` says which subclass it is). */
module Events {
  import opened Basics
  import Servers

  /** The continuations an event can carry, as tags instead of closures.
      Each tag names the objects its Kotlin closure captured. `Observe(tag)`
      stands for caller-written code: its only effect is to record that it ran. */
  datatype Callback =
    | Resume(process: Ref)
    | TryGet(store: StoreRef, getEvent: Ref)
    | ProcessGet(store: StoreRef)
    | TryPut(store: StoreRef, putEvent: Ref, item: int)
    | ProcessPut(store: StoreRef)
    | TryRequest(server: ServerRef, request: Servers.Request)
    | ProcessRequest(server: ServerRef, request: Servers.Request)
    | TryRelease(server: ServerRef, release: Ref)
    | ProcessRelease(server: ServerRef)
    | CondCheck(condition: Ref, child: Ref)
    | Stop
    | Observe(tag: nat)

  datatype Rule = AllOf | AnyOf

  /** What process code does between two yields. Constructing a store or
      server request is split into allocation (done up front) and the
      scheduling of its helper event, which is a `ScheduleEvent` action here. */
  datatype Action =
    | ScheduleEvent(event: Ref)
    | SucceedValue(event: Ref, value: Val)
    | ServerAction(server: ServerRef, process: Ref)
    | Record(tag: nat)

  /** One pull of a process sequence: run `pre`, then yield `target`. */
  datatype Step = Step(pre: seq<Action>, target: Ref)

  datatype Kind =
    | Plain
    | Termination
      /** `cursor` counts the pulls made so far; `|body| + 1` means the
          epilogue (code after the last yield) has already run. */
    | Process(body: seq<Step>, epilogue: seq<Action>, cursor: nat, alive: bool, finished: Ref)
    | Condition(rule: Rule, children: seq<Ref>)

  datatype Event = Event(
    delay: nat,
    priority: Priority,
    due: int,
    id: Option<nat>,
    triggered: bool,
    processed: bool,
    callbacks: seq<Callback>,
    status: ValueStatus,
    value: Option<Val>,
    kind: Kind)

  /** An event as its constructor leaves it: nothing fired, no callbacks,
      no id, an empty PENDING value slot. */
  predicate Fresh(e: Event) {
    && !e.triggered && !e.processed && e.callbacks == []
    && e.id == None && e.status == Pending && e.value == None
  }

  /** The EventBase constructor: a negative delay is rejected. */
  function NewEvent(delay: int, priority: Priority, kind: Kind): (r: Result<Event>)
    ensures r.Err? <==> delay < 0
    ensures r.Err? ==> r.error == InvalidArgument
    ensures r.Ok? ==> Fresh(r.value) && r.value.delay == delay
    ensures r.Ok? ==> r.value.priority == priority && r.value.kind == kind
  {
    if delay < 0 then Err(InvalidArgument)
    else Ok(Event(delay, priority, 0, None, false, false, [], Pending, None, kind))
  }

  /** appendCallback: `fn` goes last and the existing order is kept. */
  function AppendCallback(cs: seq<Callback>, fn: Callback): (r: seq<Callback>)
    ensures |r| == |cs| + 1
    ensures r[..|cs|] == cs && r[|cs|] == fn
  {
    cs + [fn]
  }

  /** prependCallback as written: the old list is extended by `fn` followed
      by a second copy of the old list, so nothing is actually put in front. */
  function PrependCallbackAsWritten(cs: seq<Callback>, fn: Callback): (r: seq<Callback>)
    ensures |r| == 2 * |cs| + 1
    ensures r[..|cs|] == cs && r[|cs|] == fn && r[|cs| + 1..] == cs
  {
    cs + ([fn] + cs)
  }

  /** prependCallback as its comment describes it: `fn` first, then the old list. */
  function PrependCallback(cs: seq<Callback>, fn: Callback): (r: seq<Callback>)
    ensures |r| == |cs| + 1
    ensures r[0] == fn && r[1..] == cs
  {
    [fn] + cs
  }

  /** The written prepend agrees with the documented one only on an empty list;
      otherwise the old callbacks would run twice and `fn` would not run first. */
  lemma PrependAsWrittenMatchesOnlyOnEmpty(cs: seq<Callback>, fn: Callback)
    ensures PrependCallbackAsWritten(cs, fn) == PrependCallback(cs, fn) <==> cs == []
    ensures cs != [] ==> PrependCallbackAsWritten(cs, fn)[0] == cs[0]
  {
    if cs != [] {
      assert |PrependCallbackAsWritten(cs, fn)| != |PrependCallback(cs, fn)|;
    }
  }

  /** ValueEvent.value(): the stored value when AVAILABLE, null otherwise. */
  function ValueOf(e: Event): (v: Option<Val>)
    ensures e.status != Available ==> v == None
    ensures e.status == Available ==> v == e.value
  {
    if e.status == Available then e.value else None
  }

  /** The value part of ValueEvent.succeed(v): store `v` and mark it AVAILABLE,
      whatever the previous status was. */
  function SetValue(e: Event, v: Val): (r: Event)
    ensures ValueOf(r) == Some(v) && r.status == Available
    ensures r.(value := e.value, status := e.status) == e
  {
    e.(value := Some(v), status := Available)
  }

  /** ValueEvent.expire(): clear the value and mark it EXPIRED. */
  function Expire(e: Event): (r: Event)
    ensures r.status == Expired && r.value == None && ValueOf(r) == None
    ensures r.(value := e.value, status := e.status) == e
  {
    e.(value := None, status := Expired)
  }

  /** A fresh value event reads as null. */
  lemma FreshValueIsNull(e: Event)
    requires Fresh(e)
    ensures ValueOf(e) == None && e.status == Pending
  {
  }

  /** Succeeding then expiring leaves nothing readable; expiring then
      succeeding makes the new value readable again (no status check). */
  lemma ExpireAndSucceedOverwrite(e: Event, v: Val)
    ensures ValueOf(Expire(SetValue(e, v))) == None
    ensures ValueOf(SetValue(Expire(e), v)) == Some(v)
  {
  }
}

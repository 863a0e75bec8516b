/** Condition events (core/src/main/kotlin/event/Condition.kt,
    AllOfCondition.kt, AnyOfCondition.kt): a ValueEvent watching a fixed list
    of children, each of which gets one check callback at construction. */
module Conditions {
  import opened Basics
  import opened Events
  import opened State

  /** The checks a list of children contributes to event `r`'s callbacks,
      in argument order: one per occurrence of `r`. */
  function Checks(c: Ref, r: Ref, children: seq<Ref>): seq<Callback>
    decreases |children|
  {
    if children == [] then []
    else (if children[0] == r then [CondCheck(c, r)] else []) + Checks(c, r, children[1..])
  }

  /** The registration loop of the Condition constructor: append
      `CondCheck(c, child)` to each child in argument order. Only callback
      lists change; nothing is scheduled. */
  function Register(env: Env, c: Ref, children: seq<Ref>): (env': Env)
    ensures Evolves(env, env')
    ensures env'.events.Keys == env.events.Keys
    ensures forall r :: r in env.events ==>
      env'.events[r].(callbacks := env.events[r].callbacks) == env.events[r]
    ensures env'.(events := env.events) == env
    decreases |children|
  {
    if children == [] then env
    else Register(AppendTo(env, children[0], CondCheck(c, children[0])), c, children[1..])
  }

  /** appendCallback on `x`, seen from event `r`: `r` gains the callback
      exactly when it is `x`. */
  lemma AppendToSeenFrom(env: Env, x: Ref, cb: Callback, r: Ref)
    requires r in env.events
    ensures r in AppendTo(env, x, cb).events
    ensures AppendTo(env, x, cb).events[r].callbacks == env.events[r].callbacks + (if x == r then [cb] else [])
  {
  }

  /** Registration appends to each event exactly its checks, in argument
      order, after the callbacks it already had. */
  lemma {:induction false} RegisterAppendsChecks(env: Env, c: Ref, children: seq<Ref>, r: Ref)
    requires r in env.events
    ensures Register(env, c, children).events[r].callbacks == env.events[r].callbacks + Checks(c, r, children)
    decreases |children|
  {
    if children != [] {
      var env1 := AppendTo(env, children[0], CondCheck(c, children[0]));
      var head := if children[0] == r then [CondCheck(c, r)] else [];
      AppendToSeenFrom(env, children[0], CondCheck(c, children[0]), r);
      assert env1.events[r].callbacks == env.events[r].callbacks + head;
      RegisterAppendsChecks(env1, c, children[1..], r);
      assert Register(env, c, children) == Register(env1, c, children[1..]);
      assert Checks(c, r, children) == head + Checks(c, r, children[1..]);
      AppendAssoc(env.events[r].callbacks, head, Checks(c, r, children[1..]));
    }
  }

  /** Condition construction: a fresh PENDING value event holding the
      children, then the registration loop. The condition is not scheduled. */
  function NewCondition(env: Env, rule: Rule, children: seq<Ref>): (a: Allocated)
    ensures Evolves(env, a.env)
    ensures a.ref == env.nextRef && a.ref in a.env.events
    ensures a.env.events[a.ref].kind == Condition(rule, children)
    ensures ValueOf(a.env.events[a.ref]) == None && !a.env.events[a.ref].triggered
    ensures a.env.queue == env.queue
    ensures Inv(env) ==> forall r :: r in env.events ==>
      a.env.events[r].(callbacks := env.events[r].callbacks) == env.events[r]
  {
    var e := NewEvent(0, Normal, Condition(rule, children)).value;
    var al := Allocate(env, e);
    Allocated(Register(al.env, al.ref, children), al.ref)
  }

  /** Each existing event gains exactly the checks its occurrences among the
      children contribute, after its own callbacks; the condition itself
      starts with the checks for its own occurrences only. */
  lemma NewConditionRegistersChecks(env: Env, rule: Rule, children: seq<Ref>, r: Ref)
    requires Inv(env) && r in env.events
    ensures var a := NewCondition(env, rule, children);
      a.env.events[r].callbacks == env.events[r].callbacks + Checks(a.ref, r, children)
  {
    var al := Allocate(env, NewEvent(0, Normal, Condition(rule, children)).value);
    RegisterAppendsChecks(al.env, al.ref, children, r);
  }

  /** With distinct children, each child gets exactly one check and every
      other event none. */
  lemma {:induction false} ChecksOfDistinctChildren(c: Ref, r: Ref, children: seq<Ref>)
    requires forall i, j :: 0 <= i < j < |children| ==> children[i] != children[j]
    ensures Checks(c, r, children) == if r in children then [CondCheck(c, r)] else []
    decreases |children|
  {
    if children != [] {
      ChecksOfDistinctChildren(c, r, children[1..]);
      if children[0] == r {
        assert r !in children[1..] by {
          forall k | 0 <= k < |children[1..]| ensures children[1..][k] != r {
            assert children[1..][k] == children[k + 1];
          }
        }
      } else {
        assert r in children <==> r in children[1..] by {
          assert children == [children[0]] + children[1..];
        }
      }
    }
  }

  /** An AllOf over no children registers nothing, so no check can ever
      succeed it: construction only adds the condition itself. */
  lemma AllOfWithoutChildrenRegistersNothing(env: Env, r: Ref)
    requires Inv(env) && r in env.events
    ensures NewCondition(env, AllOf, []).env.events[r] == env.events[r]
  {
    NewConditionRegistersChecks(env, AllOf, [], r);
  }

  predicate Triggered(events: map<Ref, Event>, r: Ref) {
    r in events && events[r].triggered
  }

  predicate AllTriggered(events: map<Ref, Event>, children: seq<Ref>) {
    forall k :: 0 <= k < |children| ==> Triggered(events, children[k])
  }

  /** The position of the first triggered child in argument order. */
  function FirstTriggered(events: map<Ref, Event>, children: seq<Ref>): (i: Option<nat>)
    ensures i.Some? ==> i.value < |children| && Triggered(events, children[i.value])
    ensures i.Some? ==> forall k :: 0 <= k < i.value ==> !Triggered(events, children[k])
    ensures i.None? ==> forall k :: 0 <= k < |children| ==> !Triggered(events, children[k])
    decreases |children|
  {
    if children == [] then None
    else if Triggered(events, children[0]) then Some(0)
    else
      match FirstTriggered(events, children[1..])
      case None => None
      case Some(j) => Some(j + 1)
  }

  /** processConditionEvent, for both rules. The child that fired is not
      consulted. AllOf: succeed (value-less) iff every child is triggered.
      AnyOf: succeed with the first triggered child in argument order; there
      is no once-guard, so each later check succeeds the condition again. */
  function Check(env: Env, c: Ref, child: Ref): (env': Env)
    ensures Evolves(env, env')
    // the watched children are fixed: the check never changes the condition's kind
    ensures c in env.events ==> c in env'.events && env'.events[c].kind == env.events[c].kind
    ensures c in env.events && env.events[c].kind.Condition? && env.events[c].kind.rule == AllOf ==>
      && (AllTriggered(env.events, env.events[c].kind.children) ==> env' == Schedule(env, c))
      && (!AllTriggered(env.events, env.events[c].kind.children) ==> env' == env)
      && ValueOf(env'.events[c]) == ValueOf(env.events[c])
      && env'.events[c].status == env.events[c].status
    ensures c in env.events && env.events[c].kind.Condition? && env.events[c].kind.rule == AnyOf ==>
      var ch := env.events[c].kind.children;
      && (forall k :: 0 <= k < |ch| ==> !Triggered(env.events, ch[k])) ==> env' == env
    ensures c in env.events && env.events[c].kind.Condition? && env.events[c].kind.rule == AnyOf ==>
      var ch := env.events[c].kind.children;
      forall i :: 0 <= i < |ch| && Triggered(env.events, ch[i])
                  && (forall k :: 0 <= k < i ==> !Triggered(env.events, ch[k])) ==>
        && env' == SucceedWith(env, c, EventVal(ch[i]))
        && ValueOf(env'.events[c]) == Some(EventVal(ch[i])) && env'.queue == env.queue + [c]
    ensures !(c in env.events && env.events[c].kind.Condition?) ==> env' == env
  {
    if c !in env.events || !env.events[c].kind.Condition? then env
    else
      var k := env.events[c].kind;
      match k.rule
      case AllOf =>
        if AllTriggered(env.events, k.children) then Schedule(env, c) else env
      case AnyOf =>
        match FirstTriggered(env.events, k.children)
        case None => env
        case Some(i) =>
          FirstTriggeredIsUnique(env.events, k.children, i);
          SucceedWith(env, c, EventVal(k.children[i]))
  }

  /** At most one position is the first triggered child. */
  lemma FirstTriggeredIsUnique(events: map<Ref, Event>, children: seq<Ref>, i: nat)
    requires i < |children| && Triggered(events, children[i])
    requires forall k :: 0 <= k < i ==> !Triggered(events, children[k])
    ensures forall j :: (0 <= j < |children| && Triggered(events, children[j])
                         && (forall k :: 0 <= k < j ==> !Triggered(events, children[k]))) ==> j == i
  {
  }

  /** The argument naming the child that fired is ignored. */
  lemma CheckIgnoresChild(env: Env, c: Ref, x: Ref, y: Ref)
    ensures Check(env, c, x) == Check(env, c, y)
  {
  }

  /** AllOf succeeds from the last child to fire: when the firing child is
      the only one not yet triggered before its firing, the check run after
      `isTriggered` was set succeeds the condition; while another child is
      still untriggered, the check changes nothing. */
  lemma AllOfSucceedsOnLastChild(env: Env, c: Ref, child: Ref)
    requires c in env.events && env.events[c].kind.Condition? && env.events[c].kind.rule == AllOf
    requires child in env.events
    requires forall k :: 0 <= k < |env.events[c].kind.children| && env.events[c].kind.children[k] != child ==>
      Triggered(env.events, env.events[c].kind.children[k])
    ensures var fired := env.(events := env.events[child := env.events[child].(triggered := true)]);
      c != child ==> Check(fired, c, child) == Schedule(fired, c)
  {
  }

  lemma AllOfWaitsForUntriggeredChild(env: Env, c: Ref, child: Ref, other: Ref)
    requires c in env.events && env.events[c].kind.Condition? && env.events[c].kind.rule == AllOf
    requires other in env.events[c].kind.children && !Triggered(env.events, other)
    ensures Check(env, c, child) == env
  {
  }

  /** AnyOf has no once-guard: a second check, from any child, succeeds the
      condition again, rescheduling it and rereading the first triggered child. */
  lemma AnyOfHasNoOnceGuard(env: Env, c: Ref, x: Ref, y: Ref, i: nat)
    requires c in env.events && env.events[c].kind.Condition? && env.events[c].kind.rule == AnyOf
    requires var ch := env.events[c].kind.children;
      c !in ch && i < |ch| && Triggered(env.events, ch[i])
      && forall k :: 0 <= k < i ==> !Triggered(env.events, ch[k])
    ensures var e1 := Check(env, c, x);
            var e2 := Check(e1, c, y);
      && e1.queue == env.queue + [c]
      && e2.queue == e1.queue + [c]
      && ValueOf(e2.events[c]) == Some(EventVal(env.events[c].kind.children[i]))
  {
    var ch := env.events[c].kind.children;
    var e1 := Check(env, c, x);
    assert forall k :: 0 <= k < |ch| ==> (Triggered(e1.events, ch[k]) <==> Triggered(env.events, ch[k])) by {
      forall k | 0 <= k < |ch| ensures Triggered(e1.events, ch[k]) <==> Triggered(env.events, ch[k]) {
        assert ch[k] != c;
      }
    }
  }
}

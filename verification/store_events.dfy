/** Stores inside the environment (core/src/main/kotlin/resources/Store.kt,
    event/StoreGetEvent.kt, event/StorePutEvent.kt): creation, initialize,
    the request/put constructors that wire and schedule a helper event, and
    the four store callbacks, whose grants become `succeed(item)` calls. */
module StoreEvents {
  import opened Basics
  import opened Events
  import opened State
  import Stores

  /** A request event, the private helper that carries its store callbacks,
      and the state holding both. */
  datatype Wired = Wired(env: Env, event: Ref, helper: Ref)

  /** Store(env, capacity): a new empty store at the next index. */
  function NewStore(env: Env, capacity: int): (r: (Env, StoreRef))
    ensures r.1 == |env.stores| && |r.0.stores| == |env.stores| + 1
    ensures r.0.stores[r.1] == Stores.NewStore(capacity)
    ensures r.0.stores[..|env.stores|] == env.stores
    ensures r.0.(stores := env.stores) == env
  {
    (env.(stores := env.stores + [Stores.NewStore(capacity)]), |env.stores|)
  }

  /** Store.initialize on store `s`, with its errors. */
  function InitializeStore(env: Env, s: StoreRef, xs: seq<int>): (r: Result<Env>)
    requires s < |env.stores|
    ensures r.Err? <==> Stores.Initialize(env.stores[s], xs).Err?
    ensures r.Err? ==> r.error == Stores.Initialize(env.stores[s], xs).error
    ensures r.Ok? ==> |r.value.stores| == |env.stores|
    ensures r.Ok? ==> r.value.stores[s].items == env.stores[s].items + xs && r.value.stores[s].initialized
    ensures r.Ok? ==> r.value == env.(stores := env.stores[s := r.value.stores[s]])
  {
    match Stores.Initialize(env.stores[s], xs)
    case Err(e) => Err(e)
    case Ok(st) => Ok(env.(stores := env.stores[s := st]))
  }

  /** The events a list of grants succeeds, in order. */
  function GrantEvents(gs: seq<Stores.Grant<int>>): (rs: seq<Ref>)
    ensures |rs| == |gs| && forall k :: 0 <= k < |gs| ==> rs[k] == gs[k].event
    decreases |gs|
  {
    if gs == [] then [] else [gs[0].event] + GrantEvents(gs[1..])
  }

  /** `succeed(item)` on each granted event, in order. */
  function ApplyGrants(env: Env, gs: seq<Stores.Grant<int>>): (env': Env)
    ensures Evolves(env, env')
    ensures env'.stores == env.stores && env'.servers == env.servers && env'.trace == env.trace
    decreases |gs|
  {
    if gs == [] then env
    else ApplyGrants(SucceedWith(env, gs[0].event, ItemVal(gs[0].item)), gs[1..])
  }

  /** Granting queues exactly the granted events, in grant order. */
  lemma {:induction false} ApplyGrantsQueue(env: Env, gs: seq<Stores.Grant<int>>)
    requires forall k :: 0 <= k < |gs| ==> gs[k].event in env.events
    ensures ApplyGrants(env, gs).queue == env.queue + GrantEvents(gs)
    decreases |gs|
  {
    if gs != [] {
      var env1 := SucceedWith(env, gs[0].event, ItemVal(gs[0].item));
      var rest := gs[1..];
      SucceedWithQueues(env, gs[0].event, ItemVal(gs[0].item));
      forall k | 0 <= k < |rest| ensures rest[k].event in env1.events {
        assert rest[k] == gs[k + 1];
      }
      ApplyGrantsQueue(env1, rest);
      var q := env.queue;
      var x := gs[0].event;
      var tail := GrantEvents(rest);
      assert ApplyGrants(env, gs).queue == env1.queue + tail;
      assert env1.queue == q + [x];
      assert GrantEvents(gs) == [x] + tail;
      AppendAssoc(q, [x], tail);
    }
  }

  lemma SucceedWithQueues(env: Env, r: Ref, v: Val)
    requires r in env.events
    ensures SucceedWith(env, r, v).queue == env.queue + [r]
    ensures env.events.Keys <= SucceedWith(env, r, v).events.Keys
  {
  }

  /** The last grant to an event decides what it reads; events no grant
      names are untouched. */
  lemma {:induction false} ApplyGrantsValues(env: Env, gs: seq<Stores.Grant<int>>)
    ensures forall k :: 0 <= k < |gs| && gs[k].event in env.events
                        && (forall j :: k < j < |gs| ==> gs[j].event != gs[k].event) ==>
      gs[k].event in ApplyGrants(env, gs).events
      && ValueOf(ApplyGrants(env, gs).events[gs[k].event]) == Some(ItemVal(gs[k].item))
    ensures forall x :: x in env.events && (forall k :: 0 <= k < |gs| ==> gs[k].event != x) ==>
      x in ApplyGrants(env, gs).events && ApplyGrants(env, gs).events[x] == env.events[x]
    decreases |gs|
  {
    if gs != [] {
      var env1 := SucceedWith(env, gs[0].event, ItemVal(gs[0].item));
      var rest := gs[1..];
      assert forall k :: 0 <= k < |rest| ==> rest[k] == gs[k + 1];
      ApplyGrantsValues(env1, rest);
      var env' := ApplyGrants(env, gs);
      assert env' == ApplyGrants(env1, rest);
      forall k | 0 <= k < |gs| && gs[k].event in env.events
                 && (forall j :: k < j < |gs| ==> gs[j].event != gs[k].event)
        ensures gs[k].event in env'.events && ValueOf(env'.events[gs[k].event]) == Some(ItemVal(gs[k].item))
      {
        if k > 0 {
          assert rest[k - 1] == gs[k];
          assert forall j :: k - 1 < j < |rest| ==> rest[j].event != rest[k - 1].event;
        } else {
          assert forall j :: 0 <= j < |rest| ==> rest[j].event != gs[0].event;
        }
      }
    }
  }

  /** succeed never looks at the stores. */
  lemma SucceedWithIgnoresStores(env: Env, stores: seq<Stores.Store<int>>, r: Ref, v: Val)
    ensures SucceedWith(env.(stores := stores), r, v) == SucceedWith(env, r, v).(stores := stores)
  {
  }

  /** Granting is unaffected by which stores the state holds. */
  lemma {:induction false} ApplyGrantsIgnoresStores(env: Env, stores: seq<Stores.Store<int>>, gs: seq<Stores.Grant<int>>)
    ensures ApplyGrants(env.(stores := stores), gs) == ApplyGrants(env, gs).(stores := stores)
    decreases |gs|
  {
    if gs != [] {
      var e1 := SucceedWith(env, gs[0].event, ItemVal(gs[0].item));
      SucceedWithIgnoresStores(env, stores, gs[0].event, ItemVal(gs[0].item));
      ApplyGrantsIgnoresStores(e1, stores, gs[1..]);
    }
  }

  /** Granting two lists one after the other is granting their concatenation. */
  lemma {:induction false} ApplyGrantsConcat(env: Env, a: seq<Stores.Grant<int>>, b: seq<Stores.Grant<int>>)
    ensures ApplyGrants(ApplyGrants(env, a), b) == ApplyGrants(env, a + b)
    decreases |a|
  {
    if a != [] {
      var e1 := SucceedWith(env, a[0].event, ItemVal(a[0].item));
      ApplyGrantsConcat(e1, a[1..], b);
      assert (a + b)[0] == a[0];
      assert (a + b)[1..] == a[1..] + b;
    } else {
      assert a + b == b;
    }
  }

  /** Install a store outcome and succeed its grant. */
  function Settle(env: Env, s: StoreRef, o: Stores.Outcome<int>): (env': Env)
    requires s < |env.stores|
    ensures Evolves(env, env')
    ensures o.grant.None? ==> env' == env.(stores := env.stores[s := o.store])
    ensures o.grant.Some? ==>
      env' == SucceedWith(env.(stores := env.stores[s := o.store]), o.grant.value.event, ItemVal(o.grant.value.item))
  {
    var e := env.(stores := env.stores[s := o.store]);
    if o.grant.None? then
      assert Stores.Grants(o.grant) == [];
      ApplyGrants(e, Stores.Grants(o.grant))
    else
      var g := o.grant.value;
      var e1 := SucceedWith(e, g.event, ItemVal(g.item));
      assert Stores.Grants(o.grant) == [g] && [g][1..] == [];
      assert ApplyGrants(e, [g]) == ApplyGrants(e1, []) == e1;
      ApplyGrants(e, Stores.Grants(o.grant))
  }

  /** The `resource.tryGet(this)` callback of a get helper. */
  function DoTryGet(env: Env, s: StoreRef, g: Ref): (env': Env)
    ensures Evolves(env, env')
    ensures s >= |env.stores| ==> env' == env
    ensures s < |env.stores| ==>
      env'.stores[s] == Stores.TryGet(env.stores[s], g).store
      && (env.stores[s].items != [] && g in env.events ==>
            g in env'.events && ValueOf(env'.events[g]) == Some(ItemVal(env.stores[s].items[0]))
            && env'.queue == env.queue + [g])
      && (env.stores[s].items == [] ==> env'.queue == env.queue && env'.events == env.events)
  {
    if s >= |env.stores| then env else Settle(env, s, Stores.TryGet(env.stores[s], g))
  }

  /** The `resource.processGet()` callback of a get helper. */
  function DoProcessGet(env: Env, s: StoreRef): (env': Env)
    ensures Evolves(env, env')
    ensures s >= |env.stores| ==> env' == env
    ensures s < |env.stores| ==> env'.stores[s] == Stores.ProcessGet(env.stores[s]).store
  {
    if s >= |env.stores| then env else Settle(env, s, Stores.ProcessGet(env.stores[s]))
  }

  /** The `resource.tryPut(this)` callback of a put helper. */
  function DoTryPut(env: Env, s: StoreRef, p: Stores.PutRequest<int>): (env': Env)
    ensures Evolves(env, env')
    ensures s >= |env.stores| ==> env' == env
    ensures s < |env.stores| ==>
      env'.stores[s] == Stores.TryPut(env.stores[s], p).store
      && (Stores.Count(env.stores[s]) < env.stores[s].capacity && p.event in env.events ==>
            p.event in env'.events && ValueOf(env'.events[p.event]) == Some(ItemVal(p.item))
            && env'.queue == env.queue + [p.event])
      && (Stores.Count(env.stores[s]) >= env.stores[s].capacity ==>
            env'.queue == env.queue && env'.events == env.events)
  {
    if s >= |env.stores| then env else Settle(env, s, Stores.TryPut(env.stores[s], p))
  }

  /** The `resource.processPut()` callback of a put helper. */
  function DoProcessPut(env: Env, s: StoreRef): (env': Env)
    ensures Evolves(env, env')
    ensures s >= |env.stores| ==> env' == env
    ensures s < |env.stores| ==> env'.stores[s] == Stores.ProcessPut(env.stores[s]).store
  {
    if s >= |env.stores| then env else Settle(env, s, Stores.ProcessPut(env.stores[s]))
  }

  /** Two store callbacks in a row on the same store: the second outcome's
      store is what remains, and both grants are succeeded, in order. */
  lemma SettleTwice(env: Env, s: StoreRef, o1: Stores.Outcome<int>, o2: Stores.Outcome<int>)
    requires s < |env.stores|
    ensures Settle(Settle(env, s, o1), s, o2)
         == ApplyGrants(env.(stores := env.stores[s := o2.store]), Stores.Grants(o1.grant) + Stores.Grants(o2.grant))
  {
    var g1 := Stores.Grants(o1.grant);
    var g2 := Stores.Grants(o2.grant);
    var x := env.stores[s := o2.store];
    var e0 := env.(stores := env.stores[s := o1.store]);
    var e1 := Settle(env, s, o1);
    assert e1 == ApplyGrants(e0, g1);
    assert e1.stores[s := o2.store] == x;
    ApplyGrantsIgnoresStores(e0, x, g1);
    assert e0.(stores := x) == env.(stores := x);
    ApplyGrantsConcat(env.(stores := x), g1, g2);
  }

  /** Running a get helper's two callbacks in the environment does what the
      pure store firing says: the same store afterwards, and exactly its
      grants succeeded, in order. */
  lemma GetHelperMatchesStore(env: Env, s: StoreRef, g: Ref)
    requires s < |env.stores|
    ensures var (st, gs) := Stores.FireGetHelper(env.stores[s], g);
      DoProcessGet(DoTryGet(env, s, g), s) == ApplyGrants(env.(stores := env.stores[s := st]), gs)
  {
    var a := Stores.TryGet(env.stores[s], g);
    var e1 := DoTryGet(env, s, g);
    assert e1 == Settle(env, s, a);
    assert DoProcessGet(e1, s) == Settle(e1, s, Stores.ProcessGet(a.store));
    SettleTwice(env, s, a, Stores.ProcessGet(a.store));
  }

  /** The same for a put helper. */
  lemma PutHelperMatchesStore(env: Env, s: StoreRef, p: Stores.PutRequest<int>)
    requires s < |env.stores|
    ensures var (st, gs) := Stores.FirePutHelper(env.stores[s], p);
      DoProcessPut(DoTryPut(env, s, p), s) == ApplyGrants(env.(stores := env.stores[s := st]), gs)
  {
    var a := Stores.TryPut(env.stores[s], p);
    var e1 := DoTryPut(env, s, p);
    assert e1 == Settle(env, s, a);
    assert DoProcessPut(e1, s) == Settle(e1, s, Stores.ProcessPut(a.store));
    SettleTwice(env, s, a, Stores.ProcessPut(a.store));
  }

  /** StoreGetEvent construction minus its last line: the get event and its
      helper, which carries `tryGet(this)` then `processGet()`. */
  function WireGet(env: Env, s: StoreRef): (w: Wired)
    ensures Evolves(env, w.env)
    ensures w.event == env.nextRef && w.helper == env.nextRef + 1
    ensures w.event in w.env.events && Fresh(w.env.events[w.event])
    ensures w.helper in w.env.events && w.env.events[w.helper].delay == 0
    ensures w.env.events[w.helper].callbacks == [TryGet(s, w.event), ProcessGet(s)]
    ensures w.env.queue == env.queue && w.env.stores == env.stores
  {
    var g := Allocate(env, NewEvent(0, Normal, Plain).value);
    var h := Allocate(g.env, NewEvent(0, Normal, Plain).value.(callbacks := [TryGet(s, g.ref), ProcessGet(s)]));
    Wired(h.env, g.ref, h.ref)
  }

  /** StorePutEvent construction minus its last line: the put event and its
      helper, which carries `tryPut(this)` then `processPut()`. */
  function WirePut(env: Env, s: StoreRef, item: int): (w: Wired)
    ensures Evolves(env, w.env)
    ensures w.event == env.nextRef && w.helper == env.nextRef + 1
    ensures w.event in w.env.events && Fresh(w.env.events[w.event])
    ensures w.helper in w.env.events && w.env.events[w.helper].delay == 0
    ensures w.env.events[w.helper].callbacks == [TryPut(s, w.event, item), ProcessPut(s)]
    ensures w.env.queue == env.queue && w.env.stores == env.stores
  {
    var p := Allocate(env, NewEvent(0, Normal, Plain).value);
    var h := Allocate(p.env, NewEvent(0, Normal, Plain).value.(callbacks := [TryPut(s, p.ref, item), ProcessPut(s)]));
    Wired(h.env, p.ref, h.ref)
  }

  /** requestOne(): the get event; only its helper is scheduled, due now. */
  function RequestOne(env: Env, s: StoreRef): (a: Allocated)
    ensures Evolves(env, a.env)
    ensures a.ref in a.env.events && !a.env.events[a.ref].triggered && ValueOf(a.env.events[a.ref]) == None
    ensures a.env.queue == env.queue + [a.ref + 1] && a.ref + 1 in a.env.events
    ensures a.env.events[a.ref + 1].due == env.now
    ensures a.env.events[a.ref + 1].callbacks == [TryGet(s, a.ref), ProcessGet(s)]
  {
    var w := WireGet(env, s);
    Allocated(Schedule(w.env, w.helper), w.event)
  }

  /** putOne(item): the put event; only its helper is scheduled, due now. */
  function PutOne(env: Env, s: StoreRef, item: int): (a: Allocated)
    ensures Evolves(env, a.env)
    ensures a.ref in a.env.events && !a.env.events[a.ref].triggered && ValueOf(a.env.events[a.ref]) == None
    ensures a.env.queue == env.queue + [a.ref + 1] && a.ref + 1 in a.env.events
    ensures a.env.events[a.ref + 1].due == env.now
    ensures a.env.events[a.ref + 1].callbacks == [TryPut(s, a.ref, item), ProcessPut(s)]
  {
    var w := WirePut(env, s, item);
    Allocated(Schedule(w.env, w.helper), w.event)
  }

  /** A put into a full store with no waiting get stays unfulfilled: its
      helper firing succeeds nothing, so the put event still reads null. */
  lemma PutIntoFullStoreStaysPending(env: Env, s: StoreRef, p: Stores.PutRequest<int>)
    requires s < |env.stores| && Stores.Count(env.stores[s]) >= env.stores[s].capacity
    requires env.stores[s].getQueue == []
    requires p.event in env.events && ValueOf(env.events[p.event]) == None
    ensures var env' := DoProcessPut(DoTryPut(env, s, p), s);
      env'.queue == env.queue && ValueOf(env'.events[p.event]) == None
      && env'.stores[s].putQueue == env.stores[s].putQueue + [p]
  {
  }
}

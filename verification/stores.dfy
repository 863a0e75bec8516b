/** The bounded FIFO Store (core/src/main/kotlin/resources/Store.kt), as a
    pure state machine. Each operation returns the new store and, when a
    request is satisfied, the grant the kernel turns into `succeed(item)`. */
module Stores {
  import opened Basics

  /** A queued StorePutEvent: its event and the item fixed at construction. */
  datatype PutRequest<T> = PutRequest(event: Ref, item: T)

  /** A satisfied request: succeed `event` with `item`. */
  datatype Grant<T> = Grant(event: Ref, item: T)

  datatype Store<T> = Store(
    capacity: int,
    items: seq<T>,
    getQueue: seq<Ref>,
    putQueue: seq<PutRequest<T>>,
    initialized: bool)

  datatype Outcome<T> = Outcome(store: Store<T>, grant: Option<Grant<T>>)

  /** What a taken item leaves behind. */
  datatype Taken<T> = Taken(item: T, store: Store<T>)

  /** numberOfAvailableItems (items are never null in this model). */
  function Count<T>(s: Store<T>): nat {
    |s.items|
  }

  /** The item bound the store is meant to keep. */
  predicate Bounded<T>(s: Store<T>) {
    Count(s) <= s.capacity
  }

  /** Both wait-queues hold only excess demand: gets wait only while the
      store is empty, puts only while it is full. */
  predicate Balanced<T>(s: Store<T>) {
    && (s.getQueue != [] ==> s.items == [])
    && (s.putQueue != [] ==> Count(s) >= s.capacity)
  }

  /** A new store: no items, no waiting requests, not initialized. */
  function NewStore<T>(capacity: int): (s: Store<T>)
    ensures Count(s) == 0 && s.capacity == capacity && !s.initialized
    ensures s.getQueue == [] && s.putQueue == []
  {
    Store(capacity, [], [], [], false)
  }

  /** initialize: reject a list longer than the capacity (checked first),
      then reject a second call, then add the items. The capacity check
      ignores the items already held. */
  function Initialize<T>(s: Store<T>, xs: seq<T>): (r: Result<Store<T>>)
    ensures |xs| > s.capacity ==> r == Err(InvalidArgument)
    ensures |xs| <= s.capacity && s.initialized ==> r == Err(StoreAlreadyInitialized)
    ensures r.Ok? <==> |xs| <= s.capacity && !s.initialized
    ensures r.Ok? ==> r.value.items == s.items + xs && r.value.initialized
    ensures r.Ok? ==> r.value.(items := s.items, initialized := s.initialized) == s
  {
    if |xs| > s.capacity then Err(InvalidArgument)
    else if s.initialized then Err(StoreAlreadyInitialized)
    else Ok(s.(items := s.items + xs, initialized := true))
  }

  /** getNextItem: the head item, or None for StoreIsEmptyException. */
  function GetNextItem<T>(s: Store<T>): (r: Option<Taken<T>>)
    ensures r.None? <==> s.items == []
    ensures r.Some? ==> [r.value.item] + r.value.store.items == s.items
    ensures r.Some? ==> r.value.store.(items := s.items) == s
  {
    if s.items == [] then None else Some(Taken(s.items[0], s.(items := s.items[1..])))
  }

  /** putNextItem: add at the back while below capacity, or None for
      StoreIsFullException. */
  function PutNextItem<T>(s: Store<T>, x: T): (r: Option<Store<T>>)
    ensures r.Some? <==> Count(s) < s.capacity
    ensures r.Some? ==> r.value.items == s.items + [x] && r.value.(items := s.items) == s
  {
    if Count(s) < s.capacity then Some(s.(items := s.items + [x])) else None
  }

  /** tryGet: hand out the head item, or queue the get at the back. */
  function TryGet<T>(s: Store<T>, g: Ref): (o: Outcome<T>)
    ensures s.items != [] ==>
      o.grant == Some(Grant(g, s.items[0])) && o.store == s.(items := s.items[1..])
    ensures s.items == [] ==>
      o.grant == None && o.store == s.(getQueue := s.getQueue + [g])
  {
    match GetNextItem(s)
    case Some(t) => Outcome(t.store, Some(Grant(g, t.item)))
    case None => Outcome(s.(getQueue := s.getQueue + [g]), None)
  }

  /** tryPut: store the item at the back and grant the put with it, or
      queue the put at the back when full. */
  function TryPut<T>(s: Store<T>, p: PutRequest<T>): (o: Outcome<T>)
    ensures Count(s) < s.capacity ==>
      o.grant == Some(Grant(p.event, p.item)) && o.store == s.(items := s.items + [p.item])
    ensures Count(s) >= s.capacity ==>
      o.grant == None && o.store == s.(putQueue := s.putQueue + [p])
  {
    match PutNextItem(s, p.item)
    case Some(s') => Outcome(s', Some(Grant(p.event, p.item)))
    case None => Outcome(s.(putQueue := s.putQueue + [p]), None)
  }

  /** processPut: retry exactly the oldest waiting get, if any. */
  function ProcessPut<T>(s: Store<T>): (o: Outcome<T>)
    ensures s.getQueue == [] ==> o == Outcome(s, None)
    ensures s.getQueue != [] && s.items != [] ==>
      o.grant == Some(Grant(s.getQueue[0], s.items[0]))
      && o.store == s.(items := s.items[1..], getQueue := s.getQueue[1..])
    ensures s.getQueue != [] && s.items == [] ==>
      o.grant == None && o.store == s.(getQueue := s.getQueue[1..] + [s.getQueue[0]])
  {
    if s.getQueue == [] then Outcome(s, None)
    else TryGet(s.(getQueue := s.getQueue[1..]), s.getQueue[0])
  }

  /** processGet: retry exactly the oldest waiting put, if any. */
  function ProcessGet<T>(s: Store<T>): (o: Outcome<T>)
    ensures s.putQueue == [] ==> o == Outcome(s, None)
    ensures s.putQueue != [] && Count(s) < s.capacity ==>
      o.grant == Some(Grant(s.putQueue[0].event, s.putQueue[0].item))
      && o.store == s.(items := s.items + [s.putQueue[0].item], putQueue := s.putQueue[1..])
    ensures s.putQueue != [] && Count(s) >= s.capacity ==>
      o.grant == None && o.store == s.(putQueue := s.putQueue[1..] + [s.putQueue[0]])
  {
    if s.putQueue == [] then Outcome(s, None)
    else TryPut(s.(putQueue := s.putQueue[1..]), s.putQueue[0])
  }

  /** Every grant this store makes, collected over one helper firing. */
  function Grants<T>(o: Option<Grant<T>>): seq<Grant<T>> {
    if o.Some? then [o.value] else []
  }

  /** The get helper firing: tryGet(this), then processGet(). */
  function FireGetHelper<T>(s: Store<T>, g: Ref): (r: (Store<T>, seq<Grant<T>>))
  {
    var a := TryGet(s, g);
    var b := ProcessGet(a.store);
    (b.store, Grants(a.grant) + Grants(b.grant))
  }

  /** The put helper firing: tryPut(this), then processPut(). */
  function FirePutHelper<T>(s: Store<T>, p: PutRequest<T>): (r: (Store<T>, seq<Grant<T>>))
  {
    var a := TryPut(s, p);
    var b := ProcessPut(a.store);
    (b.store, Grants(a.grant) + Grants(b.grant))
  }

  /** tryGet, tryPut, processGet and processPut never push the item count
      above the capacity. */
  lemma OperationsKeepBound<T>(s: Store<T>, g: Ref, p: PutRequest<T>)
    requires Bounded(s)
    ensures Bounded(TryGet(s, g).store) && Bounded(TryPut(s, p).store)
    ensures Bounded(ProcessGet(s).store) && Bounded(ProcessPut(s).store)
  {
  }

  /** initialize keeps the bound on an empty store ... */
  lemma InitializeKeepsBoundWhenEmpty<T>(s: Store<T>, xs: seq<T>)
    requires s.items == []
    requires Initialize(s, xs).Ok?
    ensures Bounded(Initialize(s, xs).value)
  {
  }

  /** ... but not on a store that already holds items (a put can run before
      initialize), because its check looks only at the new list. */
  lemma InitializeCanOverfill<T>(s: Store<T>, xs: seq<T>)
    requires !s.initialized && |xs| <= s.capacity
    requires Count(s) + |xs| > s.capacity
    ensures Initialize(s, xs).Ok? && !Bounded(Initialize(s, xs).value)
  {
  }

  /** A fresh store initialized with `xs` holds exactly `xs`, in order. */
  lemma InitializeFresh<T>(capacity: int, xs: seq<T>)
    requires |xs| <= capacity
    ensures var r := Initialize(NewStore<T>(capacity), xs);
      r.Ok? && r.value.items == xs && Count(r.value) == |xs| && r.value.initialized
  {
  }

  /** A second initialize fails and reports the double initialization
      whenever the list itself fits. */
  lemma InitializeTwiceFails<T>(s: Store<T>, xs: seq<T>, ys: seq<T>)
    requires Initialize(s, xs).Ok?
    ensures Initialize(Initialize(s, xs).value, ys).Err?
    ensures |ys| <= s.capacity ==>
      Initialize(Initialize(s, xs).value, ys) == Err(StoreAlreadyInitialized)
  {
  }

  /** Both helper firings keep the bound and keep the queues holding only
      excess demand: a satisfied put serves the oldest waiting get, a
      satisfied get lets the oldest waiting put in. */
  lemma HelpersKeepBalance<T>(s: Store<T>, g: Ref, p: PutRequest<T>)
    requires Bounded(s) && Balanced(s)
    ensures Bounded(FireGetHelper(s, g).0) && Balanced(FireGetHelper(s, g).0)
    ensures Bounded(FirePutHelper(s, p).0) && Balanced(FirePutHelper(s, p).0)
  {
  }

  /** Round trip: a put followed by a get on a store with room returns the
      oldest item, which is the put item when the store was empty, and
      leaves the items as they were. */
  lemma PutThenGetRoundTrip<T>(s: Store<T>, p: PutRequest<T>, g: Ref)
    requires Count(s) < s.capacity
    ensures var a := TryPut(s, p); var b := TryGet(a.store, g);
      && a.grant == Some(Grant(p.event, p.item))
      && b.grant == Some(Grant(g, (s.items + [p.item])[0]))
      && (s.items == [] ==> b.grant == Some(Grant(g, p.item)) && b.store.items == [])
  {
  }

  /** A get waiting on an empty store receives the item of a later put
      through that put's processPut. */
  lemma WaitingGetServedByLaterPut<T>(s: Store<T>, g: Ref, p: PutRequest<T>)
    requires s.items == [] && s.getQueue == [] && s.putQueue == [] && s.capacity > 0
    ensures var (s1, gs1) := FireGetHelper(s, g);
            var (s2, gs2) := FirePutHelper(s1, p);
      gs1 == [] && s1.getQueue == [g]
      && gs2 == [Grant(p.event, p.item), Grant(g, p.item)]
      && s2.items == [] && s2.getQueue == []
  {
  }

  /** A put waiting on a full store is let in by a later get, which takes
      the oldest item; the put's item goes to the back. */
  lemma WaitingPutServedByLaterGet<T>(s: Store<T>, p: PutRequest<T>, g: Ref)
    requires Count(s) == s.capacity && s.capacity > 0 && s.getQueue == [] && s.putQueue == []
    ensures var (s1, gs1) := FirePutHelper(s, p);
            var (s2, gs2) := FireGetHelper(s1, g);
      gs1 == [] && s1.putQueue == [p]
      && gs2 == [Grant(g, s.items[0]), Grant(p.event, p.item)]
      && s2.items == s.items[1..] + [p.item] && s2.putQueue == []
  {
  }
}

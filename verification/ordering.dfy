/** The order in which the environment pops queued events
    (core/src/main/kotlin/Environment.kt:25-31). */
module Ordering {
  import opened Basics
  import opened Events

  /** Intended order: earlier due time first; on equal due times the higher
      priority first. `NotAfter(a, b)` means `a` may be popped before `b`. */
  predicate NotAfter(a: Event, b: Event) {
    a.due < b.due || (a.due == b.due && PriorityValue(a.priority) >= PriorityValue(b.priority))
  }

  /** `NotAfter` is a total preorder, so a least element always exists. */
  lemma NotAfterIsTotalPreorder(a: Event, b: Event, c: Event)
    ensures NotAfter(a, a)
    ensures NotAfter(a, b) || NotAfter(b, a)
    ensures NotAfter(a, b) && NotAfter(b, c) ==> NotAfter(a, c)
  {
  }

  /** All queued references name events in the table. */
  predicate Known(q: seq<Ref>, events: map<Ref, Event>) {
    forall k :: 0 <= k < |q| ==> q[k] in events
  }

  /** The index the queue pops: an entry not after any other entry, and the
      earliest such entry in insertion order. java.util.PriorityQueue does not
      promise any tie-break; taking the earliest inserted is a modelling choice. */
  function MinIndex(q: seq<Ref>, events: map<Ref, Event>): (i: nat)
    requires q != [] && Known(q, events)
    ensures i < |q|
    ensures forall k :: 0 <= k < |q| ==> NotAfter(events[q[i]], events[q[k]])
    ensures forall k :: 0 <= k < i ==> !NotAfter(events[q[k]], events[q[i]])
    decreases |q|
  {
    if |q| == 1 then 0
    else
      var j := MinIndex(q[..|q| - 1], events);
      assert q[..|q| - 1][j] == q[j];
      if NotAfter(events[q[j]], events[q[|q| - 1]]) then j else |q| - 1
  }

  /** The comparator as written: when the two DELAYS are equal it compares
      priorities only; otherwise it compares due times. (The `.toInt()`
      truncation of the Double difference disappears with integer time.)
      A negative result puts `a` first. */
  function LiteralCompare(a: Event, b: Event): int {
    if a.delay == b.delay then PriorityValue(b.priority) - PriorityValue(a.priority)
    else a.due - b.due
  }

  /** Where the delays differ, the written comparator follows due time. */
  lemma LiteralAgreesWhenDelaysDiffer(a: Event, b: Event)
    requires a.delay != b.delay
    ensures LiteralCompare(a, b) < 0 <==> a.due < b.due
    ensures LiteralCompare(a, b) == 0 <==> a.due == b.due
  {
  }

  /** Where delays and due times are both equal, it follows the intended order. */
  lemma LiteralAgreesOnEqualDelayAndDue(a: Event, b: Event)
    requires a.delay == b.delay && a.due == b.due
    ensures LiteralCompare(a, b) <= 0 <==> NotAfter(a, b)
  {
  }

  /** Counterexample: two events with the same delay, scheduled at 0 and at 5.
      The written comparator puts the HIGH one due at 15 before the NORMAL one
      due at 10, so popping it first would later move the clock back to 10. */
  lemma LiteralOrdersLaterEventFirst()
    ensures var a := Event(10, Normal, 10, Some(0), false, false, [], Pending, None, Plain);
            var b := Event(10, High, 15, Some(1), false, false, [], Pending, None, Plain);
            a.due < b.due && LiteralCompare(b, a) < 0 && !NotAfter(b, a)
  {
  }

  /** Counterexample: a HIGH and a NORMAL event due at the same time but with
      different delays compare as equal, so the HIGH one need not go first. */
  lemma LiteralTiesAcrossPriorities()
    ensures var a := Event(10, Normal, 10, Some(0), false, false, [], Pending, None, Plain);
            var b := Event(5, High, 10, Some(1), false, false, [], Pending, None, Plain);
            a.due == b.due && LiteralCompare(a, b) == 0 && !NotAfter(a, b)
  {
  }
}

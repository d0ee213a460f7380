/** The virtual-clock scheduler as a pure state machine: the clock's state
    is the current virtual time and the pending queue, and each operation of
    the event-loop wrapper is a function from the old state to the new one.
    The class in module TimelessLoop is proved against these functions. */
module VirtualClock {
  import opened TimeQueue

  datatype Clock = Clock(time: real, queue: seq<Entry>)

  /** A fresh wrapper: time 0.0 and nothing pending. */
  function Init(): (c: Clock)
    ensures c.time == 0.0 && c.queue == []
  {
    Clock(0.0, [])
  }

  /** `call_at`: append the entry, then stable-sort the queue by time.
      Nothing is returned, so there is no handle to cancel it with. */
  function CallAt(c: Clock, when: real, callback: CallbackId, args: seq<int>, context: Option<nat>): (r: Clock)
    ensures r.time == c.time
    ensures |r.queue| == |c.queue| + 1
  {
    Clock(c.time, SortByTime(c.queue + [Entry(when, callback, args, context)]))
  }

  /** `call_later`: `call_at` at the current time plus `delay`; the context
      is not passed on, and the sign of `delay` is not checked. */
  function CallLater(c: Clock, delay: real, callback: CallbackId, args: seq<int>, context: Option<nat>): Clock
  {
    CallAt(c, c.time + delay, callback, args, None)
  }

  /** `call_soon`: `call_later` with a delay of zero. */
  function CallSoon(c: Clock, callback: CallbackId, args: seq<int>, context: Option<nat>): Clock
  {
    CallLater(c, 0.0, callback, args, context)
  }

  /** `time()`. */
  function Now(c: Clock): real
  {
    c.time
  }

  datatype StepResult = Idle | Fired(clock: Clock, entry: Entry)

  /** One iteration of the drain loop of `advance` towards `target`: while the
      clock is before the target and the head is due by the target, the head
      is dequeued and the clock is set to its time (even if that is earlier
      than the current time); the callback is then run by the caller. */
  function Step(c: Clock, target: real): StepResult
  {
    if c.time < target && c.queue != [] && c.queue[0].when <= target
    then Fired(Clock(c.queue[0].when, c.queue[1..]), c.queue[0])
    else Idle
  }

  /** The entries the drain loop fires, in firing order, when no callback
      schedules anything: a prefix of the queue, each due by the target. */
  function Drained(c: Clock, target: real): (fired: seq<Entry>)
    ensures |fired| <= |c.queue|
    decreases |c.queue|
  {
    if c.time < target && c.queue != [] && c.queue[0].when <= target
    then [c.queue[0]] + Drained(Clock(c.queue[0].when, c.queue[1..]), target)
    else []
  }

  /** The drain is `Step` repeated until it is idle. */
  lemma DrainedIsRepeatedStep(c: Clock, target: real)
    ensures Step(c, target).Idle? ==> Drained(c, target) == []
    ensures Step(c, target).Fired? ==>
              Drained(c, target) == [Step(c, target).entry] + Drained(Step(c, target).clock, target)
  {
  }

  /** One firing step of the drain loop, seen from where the drain
      started: the fired entry joins the fired prefix and the rest of the
      drain continues from the step's new state. */
  lemma DrainedStep(start: Clock, target: real, fired: seq<Entry>, time: real, queue: seq<Entry>)
    requires |fired| <= |start.queue| && queue == start.queue[|fired|..]
    requires Drained(start, target) == fired + Drained(Clock(time, queue), target)
    requires time < target && queue != [] && queue[0].when <= target
    ensures queue[1..] == start.queue[|fired| + 1..]
    ensures Drained(start, target) == (fired + [queue[0]]) + Drained(Clock(queue[0].when, queue[1..]), target)
  {
    var e, next := queue[0], Clock(queue[0].when, queue[1..]);
    assert Drained(Clock(time, queue), target) == [e] + Drained(next, target);
    Associative(fired, [e], Drained(next, target));
  }

  datatype Advanced = Advanced(clock: Clock, fired: seq<Entry>)

  /** `advance(delta)`: drain, then set the clock to the target regardless. */
  function Advance(c: Clock, delta: real): Advanced
  {
    var target := c.time + delta;
    var fired := Drained(c, target);
    Advanced(Clock(target, c.queue[|fired|..]), fired)
  }

  /** The drain fires a prefix of the queue, each entry due by the target. */
  lemma {:induction false} DrainedIsDuePrefix(c: Clock, target: real)
    ensures Drained(c, target) == c.queue[..|Drained(c, target)|]
    ensures forall i :: 0 <= i < |Drained(c, target)| ==> Drained(c, target)[i].when <= target
    decreases |c.queue|
  {
    match Step(c, target)
    case Idle =>
    case Fired(next, e) =>
      DrainedIsDuePrefix(next, target);
      assert c.queue == [e] + next.queue;
  }

  /** `advance` moves the clock to exactly the old time plus the delta,
      whether or not anything fired; it fires a prefix of the queue, each
      entry due by the target, and the rest stays queued. */
  lemma AdvanceSplitsQueue(c: Clock, delta: real)
    ensures Advance(c, delta).clock.time == c.time + delta
    ensures Advance(c, delta).fired + Advance(c, delta).clock.queue == c.queue
    ensures forall i :: 0 <= i < |Advance(c, delta).fired| ==> Advance(c, delta).fired[i].when <= c.time + delta
  {
    DrainedIsDuePrefix(c, c.time + delta);
    var r := Advance(c, delta);
    assert c.queue == c.queue[..|r.fired|] + c.queue[|r.fired|..];
  }

  /** When the drain loop stops, what it fired is the whole drain, the
      queue holds the rest, and setting the clock to the target completes
      `advance`. */
  lemma DrainedDone(start: Clock, delta: real, target: real, fired: seq<Entry>, time: real, queue: seq<Entry>)
    requires target == start.time + delta
    requires |fired| <= |start.queue| && queue == start.queue[|fired|..]
    requires Drained(start, target) == fired + Drained(Clock(time, queue), target)
    requires !(time < target && queue != [] && queue[0].when <= target)
    ensures Advance(start, delta) == Advanced(Clock(target, queue), fired)
  {
    assert Drained(Clock(time, queue), target) == [];
  }

  /** `call_at` leaves the clock alone and always leaves the queue sorted,
      holding the old entries plus the new one. */
  lemma CallAtSortsAndAdds(c: Clock, when: real, callback: CallbackId, args: seq<int>, context: Option<nat>)
    ensures CallAt(c, when, callback, args, context).time == c.time
    ensures Sorted(CallAt(c, when, callback, args, context).queue)
    ensures multiset(CallAt(c, when, callback, args, context).queue)
            == multiset(c.queue) + multiset{Entry(when, callback, args, context)}
  {
    var q := c.queue + [Entry(when, callback, args, context)];
    SortByTimeSorted(q);
    SortByTimePermutes(q);
  }

  /** On a sorted queue, `call_at` puts the new entry after every entry due
      no later than it and before every later one, and keeps all old entries
      in their order. */
  lemma CallAtInsertsStably(c: Clock, when: real, callback: CallbackId, args: seq<int>, context: Option<nat>)
    requires Sorted(c.queue)
    ensures var k := InsertionPoint(c.queue, when);
            CallAt(c, when, callback, args, context).queue
              == c.queue[..k] + [Entry(when, callback, args, context)] + c.queue[k..]
            && (forall i :: 0 <= i < k ==> c.queue[i].when <= when)
            && (forall i :: k <= i < |c.queue| ==> c.queue[i].when > when)
  {
    var e := Entry(when, callback, args, context);
    var q := c.queue;
    SortAfterAppend(q, e);
    InsertAfterTiesShape(q, e);
    var k := InsertionPoint(q, when);
    forall i | 0 <= i < k
      ensures q[i].when <= when
    {
      SortedPairwise(q, i, k - 1);
    }
  }

  /** Entries scheduled for the same time fire in the order they were
      scheduled, whichever queue they were appended to. */
  lemma CallAtKeepsTies(c: Clock, when: real, callback: CallbackId, args: seq<int>, context: Option<nat>, t: real)
    ensures TiesOf(CallAt(c, when, callback, args, context).queue, t)
            == TiesOf(c.queue, t) + (if when == t then [Entry(when, callback, args, context)] else [])
  {
    var e := Entry(when, callback, args, context);
    SortByTimeStable(c.queue + [e], t);
    assert (c.queue + [e])[..|c.queue|] == c.queue;
  }

  /** `call_later(d)` adds one entry at the current time plus `d`, without
      the context, for every `d` including negative ones; every old entry
      stays queued and the clock is left as it was. */
  lemma CallLaterEnqueuesAtDelay(c: Clock, delay: real, callback: CallbackId, args: seq<int>, context: Option<nat>)
    ensures CallLater(c, delay, callback, args, context).time == c.time
    ensures multiset(CallLater(c, delay, callback, args, context).queue)
            == multiset(c.queue) + multiset{Entry(c.time + delay, callback, args, None)}
  {
    CallAtSortsAndAdds(c, c.time + delay, callback, args, None);
  }

  /** `call_soon` adds one entry at the current time, without the context;
      every old entry stays queued. */
  lemma CallSoonEnqueuesNow(c: Clock, callback: CallbackId, args: seq<int>, context: Option<nat>)
    ensures CallSoon(c, callback, args, context).time == c.time
    ensures multiset(CallSoon(c, callback, args, context).queue)
            == multiset(c.queue) + multiset{Entry(c.time, callback, args, None)}
  {
    CallLaterEnqueuesAtDelay(c, 0.0, callback, args, context);
  }

  /** The drain loop stops only when the queue is empty, the head is not yet
      due, or the clock has reached the target: either it was there already
      and nothing fired, or the last fired entry was due exactly at it. */
  lemma {:induction false} DrainedStops(c: Clock, target: real)
    ensures var f := Drained(c, target);
            var rest := c.queue[|f|..];
            rest == [] || rest[0].when > target
            || (f == [] && c.time >= target)
            || (f != [] && f[|f| - 1].when == target)
    decreases |c.queue|
  {
    match Step(c, target)
    case Idle =>
    case Fired(next, e) =>
      DrainedStops(next, target);
      var f' := Drained(next, target);
      assert c.queue[1 + |f'|..] == next.queue[|f'|..];
  }

  /** After `advance` on a sorted queue, nothing left in the queue is due by
      the target, unless an entry due exactly at the target was the last one
      fired (its ties wait for the next advance) or the delta was not
      positive (then nothing fired at all). */
  lemma AdvanceLeavesOnlyLaterEntries(c: Clock, delta: real)
    requires Sorted(c.queue)
    ensures var r := Advance(c, delta);
            forall i :: 0 <= i < |r.clock.queue| ==>
              r.clock.queue[i].when > c.time + delta
              || (r.fired == [] && delta <= 0.0)
              || (r.fired != [] && r.fired[|r.fired| - 1].when == c.time + delta)
  {
    var target := c.time + delta;
    DrainedStops(c, target);
    var r := Advance(c, delta);
    var rest := r.clock.queue;
    SuffixSorted(c.queue, |r.fired|);
    forall i | 0 <= i < |rest|
      ensures rest[i].when >= rest[0].when
    {
      SortedPairwise(rest, 0, i);
    }
  }

  /** `advance` removes entries only from the head: the fired entries come
      out in queue order (ascending time, first-scheduled first among ties),
      and what remains is still sorted and in its old relative order. */
  lemma AdvanceFiresInQueueOrder(c: Clock, delta: real)
    requires Sorted(c.queue)
    ensures var r := Advance(c, delta);
            Sorted(r.fired) && Sorted(r.clock.queue)
            && r.fired == c.queue[..|r.fired|] && r.clock.queue == c.queue[|r.fired|..]
  {
    AdvanceSplitsQueue(c, delta);
    var r := Advance(c, delta);
    assert r.fired == c.queue[..|r.fired|] && r.clock.queue == c.queue[|r.fired|..];
    PrefixSorted(c.queue, |r.fired|);
    SuffixSorted(c.queue, |r.fired|);
  }

  /** An entry due after the target never fires and stays queued. */
  lemma AdvanceKeepsLaterEntries(c: Clock, delta: real, i: nat)
    requires i < |c.queue| && c.queue[i].when > c.time + delta
    ensures var r := Advance(c, delta);
            i >= |r.fired| && r.clock.queue[i - |r.fired|] == c.queue[i]
  {
    AdvanceSplitsQueue(c, delta);
    var r := Advance(c, delta);
    assert forall j :: 0 <= j < |r.fired| ==> c.queue[j] == r.fired[j];
    assert r.clock.queue[i - |r.fired|] == (r.fired + r.clock.queue)[i];
  }

  /** Because the loop requires the clock to be before the target,
      `advance(0)` (or a negative delta) fires nothing, even entries that are
      already due, and leaves the queue as it was. */
  lemma AdvanceNonPositiveFiresNothing(c: Clock, delta: real)
    requires delta <= 0.0
    ensures Advance(c, delta).fired == []
    ensures Advance(c, delta).clock == Clock(c.time + delta, c.queue)
  {
  }

  /** Once an entry due exactly at the target fires, the loop stops: its
      ties stay queued for the next advance. */
  lemma TieAtTargetFiresAlone(c: Clock, delta: real)
    requires delta > 0.0 && c.queue != [] && c.queue[0].when == c.time + delta
    ensures Advance(c, delta).fired == [c.queue[0]]
    ensures Advance(c, delta).clock.queue == c.queue[1..]
  {
    var target := c.time + delta;
    var next := Clock(target, c.queue[1..]);
    assert Step(c, target) == Fired(next, c.queue[0]);
    assert Step(next, target) == Idle;
    assert Drained(next, target) == [];
    assert Drained(c, target) == [c.queue[0]];
  }

  /** Only the last entry a drain fires can be due at the target: every
      earlier one was due strictly before it. So once an entry due exactly
      at the target fires, the loop stops and that entry's ties stay queued. */
  lemma {:induction false} DrainedOnlyLastAtTarget(c: Clock, target: real)
    ensures forall i :: 0 <= i < |Drained(c, target)| - 1 ==> Drained(c, target)[i].when < target
    decreases |c.queue|
  {
    if c.time < target && c.queue != [] && c.queue[0].when <= target {
      var next := Clock(c.queue[0].when, c.queue[1..]);
      DrainedOnlyLastAtTarget(next, target);
      var rest := Drained(next, target);
      assert Drained(c, target) == [c.queue[0]] + rest;
      if c.queue[0].when == target {
        assert rest == [];
      }
      forall i | 0 <= i < |Drained(c, target)| - 1
        ensures Drained(c, target)[i].when < target
      {
        if i > 0 {
          assert Drained(c, target)[i] == rest[i - 1];
        }
      }
    }
  }

  /** Entries strictly before the target at the head of the queue all fire,
      provided the clock starts before the target. */
  lemma {:induction false} DrainedFiresStrictlyDue(c: Clock, target: real, k: nat)
    requires c.time < target && k < |c.queue|
    requires forall i :: 0 <= i <= k ==> c.queue[i].when < target
    ensures |Drained(c, target)| > k
    decreases k
  {
    var next := Clock(c.queue[0].when, c.queue[1..]);
    assert Step(c, target) == Fired(next, c.queue[0]);
    if k > 0 {
      DrainedFiresStrictlyDue(next, target, k - 1);
    }
  }

  /** Re-entrancy: a callback fired at a time before the target that calls
      `call_soon` has that new callback fired in the same `advance` (the
      drain continues from the state the callback left). The drain first
      fires the old entries due no later than now, then the new entry. */
  lemma ReentrantCallSoonFires(c: Clock, target: real, callback: CallbackId, args: seq<int>, context: Option<nat>)
    requires Sorted(c.queue)
    requires Step(c, target).Fired? && Step(c, target).entry.when < target
    ensures var c1 := Step(c, target).clock;
            var k := InsertionPoint(c1.queue, c1.time);
            var after := CallSoon(c1, callback, args, context);
            |Drained(after, target)| > k
            && Drained(after, target)[..k + 1] == c1.queue[..k] + [Entry(c1.time, callback, args, None)]
  {
    var c1 := Step(c, target).clock;
    var t := c1.time;
    var e := Entry(t, callback, args, None);
    assert Sorted(c1.queue);
    CallAtInsertsStably(c1, t, callback, args, None);
    CallAtSortsAndAdds(c1, t, callback, args, None);
    var after := CallSoon(c1, callback, args, context);
    var k := InsertionPoint(c1.queue, t);
    assert after.queue[k] == e;
    forall i | 0 <= i <= k
      ensures after.queue[i].when < target
    {
      if i < k {
        assert after.queue[i] == c1.queue[i];
      }
    }
    DrainedFiresStrictlyDue(after, target, k);
    DrainedIsDuePrefix(after, target);
    assert after.queue[..k + 1] == c1.queue[..k] + [e];
  }

  /** The sum of a sequence of deltas. */
  function SumOf(deltas: seq<real>): real
  {
    if deltas == [] then 0.0 else deltas[0] + SumOf(deltas[1..])
  }

  /** The clock after applying `advance` once per delta, in order. */
  function AdvanceAll(c: Clock, deltas: seq<real>): Clock
    decreases |deltas|
  {
    if deltas == [] then c else AdvanceAll(Advance(c, deltas[0]).clock, deltas[1..])
  }

  /** Over a run of advances the clock ends at its start plus the sum of
      the deltas, whatever fired along the way. */
  lemma {:induction false} AdvanceAllTime(c: Clock, deltas: seq<real>)
    ensures AdvanceAll(c, deltas).time == c.time + SumOf(deltas)
    decreases |deltas|
  {
    if deltas != [] {
      AdvanceAllTime(Advance(c, deltas[0]).clock, deltas[1..]);
    }
  }

  /** A firing step sets the clock to the entry's own time, which can be
      earlier than the current time: here from 5.0 back to 1.0. */
  lemma StepCanMoveClockBack()
    ensures var c := CallAt(Clock(5.0, []), 1.0, 7, [], None);
            Step(c, 10.0) == Fired(Clock(1.0, []), Entry(1.0, 7, [], None))
  {
    var c := CallAt(Clock(5.0, []), 1.0, 7, [], None);
    SortAfterAppend([], Entry(1.0, 7, [], None));
    assert c.queue == [Entry(1.0, 7, [], None)];
  }
}

/** The event-loop wrapper whose scheduling primitives run against a virtual
    clock. Its fields are updated in place, as in the Python class; each
    method is proved against the pure transition of module VirtualClock. */
module TimelessLoop {
  import opened TimeQueue
  import VirtualClock

  /** The wrapped real loop is only ever referred to, never inspected. */
  type LoopId = nat

  class TimelessEventLoopWrapper {
    const wrappedLoop: LoopId
    var time: real
    var queue: seq<Entry>  // kept in ascending time order by every method

    /** The abstract state: the virtual time and the pending queue. */
    function State(): VirtualClock.Clock
      reads this
    {
      VirtualClock.Clock(time, queue)
    }

    constructor (wrapped: LoopId)
      ensures Sorted(queue) && wrappedLoop == wrapped
      ensures State() == VirtualClock.Init()
    {
      wrappedLoop := wrapped;
      time := 0.0;
      queue := [];
    }

    /** `call_at`: append, then re-sort the whole queue by time. */
    method CallAt(when: real, callback: CallbackId, args: seq<int>, context: Option<nat>)
      requires Sorted(queue)
      modifies this
      ensures Sorted(queue)
      ensures State() == VirtualClock.CallAt(old(State()), when, callback, args, context)
    {
      queue := queue + [Entry(when, callback, args, context)];
      SortByTimeSorted(queue);
      queue := SortByTime(queue);
    }

    /** `call_later`: schedule at `time + delay`, dropping the context. */
    method CallLater(delay: real, callback: CallbackId, args: seq<int>, context: Option<nat>)
      requires Sorted(queue)
      modifies this
      ensures Sorted(queue)
      ensures State() == VirtualClock.CallLater(old(State()), delay, callback, args, context)
    {
      CallAt(time + delay, callback, args, None);
    }

    /** `call_soon`: `call_later` with a zero delay. */
    method CallSoon(callback: CallbackId, args: seq<int>, context: Option<nat>)
      requires Sorted(queue)
      modifies this
      ensures Sorted(queue)
      ensures State() == VirtualClock.CallSoon(old(State()), callback, args, context)
    {
      CallLater(0.0, callback, args, context);
    }

    /** `time()`: the current virtual time. */
    method Time() returns (t: real)
      ensures t == VirtualClock.Now(State())
    {
      t := time;
    }

    /** One iteration of the drain loop of `advance`: dequeue the head if the
        clock is before `target` and the head is due by it, and set the clock
        to the head's time. The returned entry's callback is the caller's to
        run; a harness may schedule more work before the next step, as a
        callback would. */
    method FireNext(target: real) returns (next: Option<Entry>)
      requires Sorted(queue)
      modifies this
      ensures Sorted(queue)
      ensures VirtualClock.Step(old(State()), target).Idle? ==> next == None && State() == old(State())
      ensures VirtualClock.Step(old(State()), target).Fired? ==>
                next == Some(VirtualClock.Step(old(State()), target).entry)
                && State() == VirtualClock.Step(old(State()), target).clock
    {
      if time < target && queue != [] && queue[0].when <= target {
        var e := queue[0];
        queue := queue[1..];
        time := e.when;
        next := Some(e);
      } else {
        next := None;
      }
    }

    /** `advance(delta)`: fire every entry the drain loop reaches, in queue
        order, then set the clock to the target. Returns the fired entries. */
    method Advance(delta: real) returns (fired: seq<Entry>)
      requires Sorted(queue)
      modifies this
      ensures Sorted(queue)
      ensures VirtualClock.Advanced(State(), fired) == VirtualClock.Advance(old(State()), delta)
    {
      ghost var start := State();
      var target := time + delta;
      fired := [];
      ghost var drain := VirtualClock.Drained(start, target);
      while time < target && queue != []
        invariant |fired| <= |start.queue| && queue == start.queue[|fired|..]
        invariant drain == fired + VirtualClock.Drained(VirtualClock.Clock(time, queue), target)
        decreases |queue|
      {
        var e := queue[0];
        if e.when > target {
          // not yet allowed to run
          break;
        }
        VirtualClock.DrainedStep(start, target, fired, time, queue);
        queue := queue[1..];
        time := e.when;
        fired := fired + [e];
        // e's callback runs here; callbacks are opaque and schedule nothing
      }
      VirtualClock.DrainedDone(start, delta, target, fired, time, queue);
      SuffixSorted(start.queue, |fired|);
      time := target;
    }
  }
}

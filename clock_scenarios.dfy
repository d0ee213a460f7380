/** Worked runs of the virtual clock: an end-to-end run of two
    `call_later`s and two advances, the firing order of entries with equal
    times, and a callback that calls `call_soon` while `advance` is
    draining. */
module ClockScenarios {
  import opened TimeQueue
  import opened VirtualClock
  import TimelessLoop

  /** Scheduling no earlier than everything queued appends at the end. */
  lemma CallAtLatest(c: Clock, when: real, callback: CallbackId, args: seq<int>, context: Option<nat>)
    requires Sorted(c.queue)
    requires forall i :: 0 <= i < |c.queue| ==> c.queue[i].when <= when
    ensures CallAt(c, when, callback, args, context).queue == c.queue + [Entry(when, callback, args, context)]
  {
    SortAfterAppend(c.queue, Entry(when, callback, args, context));
    InsertAfterTiesAtEnd(c.queue, Entry(when, callback, args, context));
  }

  /** Scheduling `f` then `g` three units out queues them in that order. */
  lemma ScheduleTwoLater(f: CallbackId, g: CallbackId)
    ensures CallLater(CallLater(Init(), 3.0, f, [], None), 3.0, g, [], None)
            == Clock(0.0, [Entry(3.0, f, [], None), Entry(3.0, g, [], None)])
  {
    var ef, eg := Entry(3.0, f, [], None), Entry(3.0, g, [], None);
    var s1 := CallLater(Init(), 3.0, f, [], None);
    assert s1 == Clock(0.0, [ef]) by {
      assert s1 == CallAt(Init(), 3.0, f, [], None);
      CallAtLatest(Init(), 3.0, f, [], None);
    }
    assert CallLater(s1, 3.0, g, [], None) == CallAt(Clock(0.0, [ef]), 3.0, g, [], None);
    CallAtLatest(Clock(0.0, [ef]), 3.0, g, [], None);
  }

  /** Two callbacks three units out: advancing by 1 fires neither and leaves
      the clock at 1; advancing by 5 more fires both, in the order they were
      scheduled, and leaves the clock at 6. */
  lemma EndToEnd(f: CallbackId, g: CallbackId)
    ensures var c := CallLater(CallLater(Init(), 3.0, f, [], None), 3.0, g, [], None);
            var first := Advance(c, 1.0);
            var second := Advance(first.clock, 5.0);
            first.fired == [] && first.clock.time == 1.0
            && second.fired == [Entry(3.0, f, [], None), Entry(3.0, g, [], None)]
            && second.clock == Clock(6.0, [])
  {
    var ef, eg := Entry(3.0, f, [], None), Entry(3.0, g, [], None);
    ScheduleTwoLater(f, g);
    var c := Clock(0.0, [ef, eg]);
    var mid := Clock(1.0, [ef, eg]);
    assert Advance(c, 1.0) == Advanced(mid, []) by {
      assert Step(c, 1.0) == Idle;
    }
    assert Drained(mid, 6.0) == [ef, eg] by {
      assert Step(mid, 6.0) == Fired(Clock(3.0, [eg]), ef);
      assert Step(Clock(3.0, [eg]), 6.0) == Fired(Clock(3.0, []), eg);
      assert Drained(Clock(3.0, []), 6.0) == [];
    }
  }

  /** An entry due before both queued entries goes to the front. */
  lemma CallAtFront(a: CallbackId, b: CallbackId, c: CallbackId)
    ensures CallAt(Clock(0.0, [Entry(5.0, a, [], None), Entry(5.0, b, [], None)]), 2.0, c, [], None)
            == Clock(0.0, [Entry(2.0, c, [], None), Entry(5.0, a, [], None), Entry(5.0, b, [], None)])
  {
    var ea, eb, ec := Entry(5.0, a, [], None), Entry(5.0, b, [], None), Entry(2.0, c, [], None);
    SortAfterAppend([ea, eb], ec);
    assert [ea, eb][..1] == [ea];
    assert InsertAfterTies([ea], ec) == [ec, ea];
  }

  /** Scheduling at 5, 5 and then 2 puts the last one first. */
  lemma ScheduleThree(a: CallbackId, b: CallbackId, c: CallbackId)
    ensures CallAt(CallAt(CallAt(Init(), 5.0, a, [], None), 5.0, b, [], None), 2.0, c, [], None)
            == Clock(0.0, [Entry(2.0, c, [], None), Entry(5.0, a, [], None), Entry(5.0, b, [], None)])
  {
    var ea, eb := Entry(5.0, a, [], None), Entry(5.0, b, [], None);
    var s1 := CallAt(Init(), 5.0, a, [], None);
    assert s1 == Clock(0.0, [ea]) by {
      CallAtLatest(Init(), 5.0, a, [], None);
    }
    assert CallAt(s1, 5.0, b, [], None) == Clock(0.0, [ea, eb]) by {
      CallAtLatest(Clock(0.0, [ea]), 5.0, b, [], None);
    }
    CallAtFront(a, b, c);
  }

  /** Scheduling at 5, 5, 2 and 8, in that order, queues them by time with
      the two at 5 in scheduling order. */
  lemma ScheduleFour(a: CallbackId, b: CallbackId, c: CallbackId, d: CallbackId)
    ensures CallAt(CallAt(CallAt(CallAt(Init(), 5.0, a, [], None), 5.0, b, [], None), 2.0, c, [], None), 8.0, d, [], None).queue
            == [Entry(2.0, c, [], None), Entry(5.0, a, [], None), Entry(5.0, b, [], None), Entry(8.0, d, [], None)]
  {
    ScheduleThree(a, b, c);
    CallAtLatest(Clock(0.0, [Entry(2.0, c, [], None), Entry(5.0, a, [], None), Entry(5.0, b, [], None)]), 8.0, d, [], None);
  }

  /** Scheduled at 5, 5, 2 and 8 (in that order), an advance by 10 fires the
      one at 2, then the two at 5 in the order they were scheduled, then the
      one at 8. */
  lemma FiringOrder(a: CallbackId, b: CallbackId, c: CallbackId, d: CallbackId)
    ensures var s := CallAt(CallAt(CallAt(CallAt(Init(), 5.0, a, [], None), 5.0, b, [], None), 2.0, c, [], None), 8.0, d, [], None);
            Advance(s, 10.0).fired
              == [Entry(2.0, c, [], None), Entry(5.0, a, [], None), Entry(5.0, b, [], None), Entry(8.0, d, [], None)]
  {
    var ea, eb, ec, ed := Entry(5.0, a, [], None), Entry(5.0, b, [], None), Entry(2.0, c, [], None), Entry(8.0, d, [], None);
    ScheduleFour(a, b, c, d);
    var s := Clock(0.0, [ec, ea, eb, ed]);
    assert Drained(Clock(8.0, []), 10.0) == [];
    assert Step(Clock(5.0, [ed]), 10.0) == Fired(Clock(8.0, []), ed);
    assert Drained(Clock(5.0, [ed]), 10.0) == [ed];
    assert Step(Clock(5.0, [eb, ed]), 10.0) == Fired(Clock(5.0, [ed]), eb);
    assert Drained(Clock(5.0, [eb, ed]), 10.0) == [eb, ed];
    assert Step(Clock(2.0, [ea, eb, ed]), 10.0) == Fired(Clock(5.0, [eb, ed]), ea);
    assert Drained(Clock(2.0, [ea, eb, ed]), 10.0) == [ea, eb, ed];
    assert Step(s, 10.0) == Fired(Clock(2.0, [ea, eb, ed]), ec);
    assert Drained(s, 10.0) == [ec, ea, eb, ed];
  }

  /** A harness driving the wrapper one drain step at a time: the callback
      fired at time 1 calls `call_soon`, and the callback it schedules fires
      before the advance towards 5 completes; the clock then settles at 5. */
  method ReentrantCallSoon(first: CallbackId, second: CallbackId) returns (fired: seq<CallbackId>, finalTime: real)
    ensures fired == [first, second] && finalTime == 5.0
  {
    var loop := new TimelessLoop.TimelessEventLoopWrapper(0);
    loop.CallLater(1.0, first, [], None);
    SortAfterAppend([], Entry(1.0, first, [], None));
    var now := loop.Time();
    var target := now + 5.0;
    var next := loop.FireNext(target);
    fired := [next.value.callback];
    // the first callback's body: call_soon(second)
    loop.CallSoon(second, [], None);
    SortAfterAppend([], Entry(1.0, second, [], None));
    next := loop.FireNext(target);
    fired := fired + [next.value.callback];
    next := loop.FireNext(target);
    assert next == None;
    // the rest of the advance: nothing is due, the clock jumps to the target
    now := loop.Time();
    var rest := loop.Advance(target - now);
    finalTime := loop.Time();
  }
}

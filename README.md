# Timeless event loop: a verified model

This project models the test helper `TimelessEventLoopWrapper` from
`tests/asyncio_test_helpers.py`. The wrapper replaces an asyncio event
loop's clock with a virtual one. `call_at`, `call_later` and `call_soon`
append `(when, callback, args, context)` entries to a pending list and
re-sort it by time. `time()` reads the virtual clock. `advance(delta)`
drains the due head of the list, one entry at a time, and then sets the
clock to the old time plus `delta`. The project also models the two
byte-stream test doubles in the same file, `MockTransport` and
`MockProtocol`.

The model is in five modules:

- `TimeQueue` (`time_queue.dfy`): the pending entry and the stable sort by
  time that `call_at` applies after every append. The sort is an insertion
  sort. It is proved to produce an ascending queue, to be a permutation of
  its input, and to be stable: `TiesOf`, the entries at one time, is
  unchanged.
- `VirtualClock` (`virtual_clock.dfy`): the scheduler as pure functions
  from a state `Clock(time, queue)` to the next state. `Step` is one
  iteration of the drain loop, `Drained` is the whole drain, and `Advance`
  is the drain followed by the jump to the target. The lemmas here state
  what the code promises.
- `TimelessLoop` (`timeless_loop.dfy`): the class itself. It has the
  fields `time` and `queue`, which its methods update in place, as the
  Python code does. Every method is proved against the matching function
  of `VirtualClock` and keeps the queue sorted. `Advance` is the Python
  `while` loop with its invariants. `FireNext` is one iteration of that
  loop, so a harness can schedule more work between steps, as a callback
  would.
- `MockStreams` (`mock_streams.dfy`): the transport and protocol doubles,
  as classes with byte-sequence fields.
- `ClockScenarios` (`clock_scenarios.dfy`): worked runs. They cover an
  end-to-end run, the firing order of ties, and a callback that calls
  `call_soon` while `advance` is draining.

The model follows the code, including where its behaviour may be
surprising:

- `advance(0)` fires nothing, even entries already due. The loop guard is
  `_time < target_time`.
- Neither a negative delay nor a negative delta is rejected.
- Firing an entry whose time is earlier than the current time moves the
  clock backwards during the drain (`StepCanMoveClockBack`). Only the
  final time is guaranteed.
- Once an entry due exactly at the target fires, the other entries at
  that time stay queued.
- The scheduling calls return nothing, so there is no handle to cancel an
  entry with.
- `call_later` does not pass `context` on. It is always stored as `None`.
- `connection_made` flushes the pending bytes but never clears them. A
  second attach therefore sends them again.

Time is a `real`, callbacks are opaque identifiers (`CallbackId`), call
arguments are `seq<int>` and a context is an optional identifier. Bytes
are a `newtype` over `0..255`.

## Model

| member | source | states |
|---|---|---|
| TimeQueue.SortByTime | tests/asyncio_test_helpers.py:70-71 | sorting by time keeps the number of pending entries |
| TimeQueue.SortByTimeSorted | tests/asyncio_test_helpers.py:70-71 | after the re-sort the queue is ascending by scheduled time |
| TimeQueue.SortByTimePermutes | tests/asyncio_test_helpers.py:70-71 | the re-sort neither loses nor adds entries (multiset equality) |
| TimeQueue.SortByTimeStable | tests/asyncio_test_helpers.py:70-71 | the sort is stable: for every time t, the entries due at t keep their order |
| TimeQueue.SortByTimeOfSorted | tests/asyncio_test_helpers.py:70-71 | re-sorting an already ascending queue leaves it as it is |
| TimeQueue.SortAfterAppend | tests/asyncio_test_helpers.py:68-71 | appending to an ascending queue and re-sorting is one stable insertion |
| TimeQueue.InsertAfterTies | tests/asyncio_test_helpers.py:68-71 | one stable insertion adds exactly one entry |
| TimeQueue.InsertAfterTiesShape | tests/asyncio_test_helpers.py:68-71 | the new entry lands after every trailing entry due no later than it, before the first later one, and the rest keeps its order |
| TimeQueue.InsertAfterTiesSorted | tests/asyncio_test_helpers.py:68-71 | inserting into an ascending queue keeps it ascending |
| TimeQueue.InsertAfterTiesPermutes | tests/asyncio_test_helpers.py:68-71 | inserting adds exactly the new entry to the queue's contents |
| TimeQueue.InsertAfterTiesTies | tests/asyncio_test_helpers.py:68-71 | the new entry goes last among the entries with its time; other ties keep their order |
| TimeQueue.InsertAfterTiesAtEnd | tests/asyncio_test_helpers.py:68-71 | an entry due no earlier than every queued one is appended at the end |
| VirtualClock.Init | tests/asyncio_test_helpers.py:22-25 | a fresh wrapper has time 0.0 and nothing pending |
| VirtualClock.CallAt | tests/asyncio_test_helpers.py:66-71 | `call_at` keeps the time and grows the queue by exactly one entry |
| VirtualClock.CallAtSortsAndAdds | tests/asyncio_test_helpers.py:66-71 | after `call_at` the time is unchanged, the queue is ascending, and its contents are the old ones plus the new entry |
| VirtualClock.CallAtInsertsStably | tests/asyncio_test_helpers.py:66-71 | on an ascending queue the new entry goes after every entry due no later than it and before every later one; old entries keep their order |
| VirtualClock.CallAtKeepsTies | tests/asyncio_test_helpers.py:66-71 | the entries due at any time t are the old ones at t, followed by the new entry if it is due at t |
| VirtualClock.CallLaterEnqueuesAtDelay | tests/asyncio_test_helpers.py:63-64 | `call_later(d)` keeps the time and adds exactly one entry, at time plus d and without the context, to the old entries (multiset equality), for any sign of d |
| VirtualClock.CallSoonEnqueuesNow | tests/asyncio_test_helpers.py:73-74 | `call_soon` keeps the time and adds exactly one entry, at the current time and without the context, to the old entries (multiset equality) |
| VirtualClock.Drained | tests/asyncio_test_helpers.py:35-44 | the drain loop fires no more entries than are queued |
| VirtualClock.DrainedIsRepeatedStep | tests/asyncio_test_helpers.py:35-44 | the drain is the single loop iteration repeated until it stops |
| VirtualClock.DrainedIsDuePrefix | tests/asyncio_test_helpers.py:35-44 | the drain fires a prefix of the queue, each entry due by the target |
| VirtualClock.DrainedStops | tests/asyncio_test_helpers.py:35-40 | the loop stops only when nothing is queued, the head is due after the target, or the clock has reached the target |
| VirtualClock.DrainedFiresStrictlyDue | tests/asyncio_test_helpers.py:35-44 | from a time before the target, every head entry due strictly before the target fires |
| VirtualClock.AdvanceSplitsQueue | tests/asyncio_test_helpers.py:27-47 | after `advance(delta)` the time is the old time plus delta; fired entries plus remaining entries are the old queue; every fired entry was due by the target |
| VirtualClock.AdvanceFiresInQueueOrder | tests/asyncio_test_helpers.py:35-44 | on an ascending queue, entries fire in queue order (ascending, FIFO among ties) and what remains keeps its order |
| VirtualClock.AdvanceKeepsLaterEntries | tests/asyncio_test_helpers.py:38-40 | an entry due after the target does not fire and stays queued unchanged |
| VirtualClock.AdvanceLeavesOnlyLaterEntries | tests/asyncio_test_helpers.py:35-47 | after `advance` on an ascending queue, every remaining entry is due after the target, unless the last fired entry was due exactly at the target or the delta was not positive |
| VirtualClock.AdvanceNonPositiveFiresNothing | tests/asyncio_test_helpers.py:35 | `advance(0)` or a negative delta fires nothing and only moves the clock |
| VirtualClock.TieAtTargetFiresAlone | tests/asyncio_test_helpers.py:35-43 | when the head is due exactly at the target, it alone fires and the rest of the queue, its ties included, stays (the general case is `DrainedOnlyLastAtTarget`) |
| VirtualClock.DrainedOnlyLastAtTarget | tests/asyncio_test_helpers.py:35-43 | every fired entry but the last was due strictly before the target: once any entry due exactly at the target fires, the loop stops and its ties stay queued |
| VirtualClock.ReentrantCallSoonFires | tests/asyncio_test_helpers.py:35-44 | a `call_soon` made by a callback fired before the target is fired by the same drain: the drain fires the old entries due no later than the current time, then exactly the new entry |
| VirtualClock.AdvanceAllTime | tests/asyncio_test_helpers.py:28-47 | over a run of advances the clock ends at its start plus the sum of the deltas |
| VirtualClock.StepCanMoveClockBack | tests/asyncio_test_helpers.py:42-43 | firing an entry due before the current time moves the clock back to that entry's time |
| TimelessLoop.TimelessEventLoopWrapper.constructor | tests/asyncio_test_helpers.py:22-25 | the wrapper starts at time 0.0 with an empty, ascending queue and keeps the wrapped loop |
| TimelessLoop.TimelessEventLoopWrapper.CallAt | tests/asyncio_test_helpers.py:66-71 | the in-place append and re-sort yields exactly `VirtualClock.CallAt` of the old state, and the queue stays ascending |
| TimelessLoop.TimelessEventLoopWrapper.CallLater | tests/asyncio_test_helpers.py:63-64 | the new state is `VirtualClock.CallLater` of the old one, and the queue stays ascending |
| TimelessLoop.TimelessEventLoopWrapper.CallSoon | tests/asyncio_test_helpers.py:73-74 | the new state is `VirtualClock.CallSoon` of the old one, and the queue stays ascending |
| TimelessLoop.TimelessEventLoopWrapper.Time | tests/asyncio_test_helpers.py:76-77 | returns the current virtual time |
| TimelessLoop.TimelessEventLoopWrapper.FireNext | tests/asyncio_test_helpers.py:35-43 | one loop iteration: when `VirtualClock.Step` is idle nothing changes; otherwise the head is returned and removed, and the clock takes its time |
| TimelessLoop.TimelessEventLoopWrapper.Advance | tests/asyncio_test_helpers.py:27-47 | the in-place drain loop and the final jump yield exactly `VirtualClock.Advance` of the old state, with the fired entries returned in order; the queue stays ascending |
| MockStreams.MockTransport.constructor | tests/asyncio_test_helpers.py:86-91 | a new transport has an empty buffer, all flags clear and no protocol |
| MockStreams.MockTransport.Write | tests/asyncio_test_helpers.py:109-110 | written bytes are appended to the buffer |
| MockStreams.MockTransport.WriteEof | tests/asyncio_test_helpers.py:112-113 | sets the end-of-file flag |
| MockStreams.MockTransport.Abort | tests/asyncio_test_helpers.py:118-119 | sets the aborted flag |
| MockStreams.MockTransport.Close | tests/asyncio_test_helpers.py:133-135 | sets the closed flag |
| MockStreams.MockTransport.SetProtocol | tests/asyncio_test_helpers.py:126-127 | attaches the protocol |
| MockStreams.MockTransport.PretendToReceive | tests/asyncio_test_helpers.py:121-131 | with a protocol attached, the bytes are appended to its received bytes and nothing else changes; with none, the assertion in `get_protocol` fails |
| MockStreams.MockProtocol.constructor | tests/asyncio_test_helpers.py:144-147 | a new protocol has nothing pending, nothing received and no transport |
| MockStreams.MockProtocol.DataReceived | tests/asyncio_test_helpers.py:149-150 | received bytes are appended in arrival order |
| MockStreams.MockProtocol.ConnectionMade | tests/asyncio_test_helpers.py:152-156 | attaches the transport and appends the pending bytes to its buffer; the pending bytes are not cleared |
| MockStreams.MockProtocol.Write | tests/asyncio_test_helpers.py:158-162 | with a transport attached the bytes are appended to its buffer and nothing else changes; without one they are appended to the pending bytes |
| MockStreams.WriteOrderAcrossAttach | tests/asyncio_test_helpers.py:152-162 | bytes written before and after the transport attaches reach its buffer once each, in write order |
| MockStreams.ReattachResends | tests/asyncio_test_helpers.py:152-156 | attaching a second transport sends the early bytes to it as well |
| ClockScenarios.CallAtLatest | tests/asyncio_test_helpers.py:66-71 | scheduling an entry, with any arguments and context, no earlier than everything queued appends it at the end |
| ClockScenarios.ScheduleTwoLater | tests/asyncio_test_helpers.py:63-71 | two `call_later(3)` calls queue both entries at 3 in call order |
| ClockScenarios.EndToEnd | tests/asyncio_test_helpers.py:27-71 | with two entries at 3, `advance(1)` fires neither and leaves time 1; `advance(5)` fires both in call order and leaves time 6 and an empty queue |
| ClockScenarios.CallAtFront | tests/asyncio_test_helpers.py:66-71 | an entry due before both queued entries goes to the front |
| ClockScenarios.ScheduleThree | tests/asyncio_test_helpers.py:66-71 | scheduling at 5, 5 and 2 queues the one at 2 first, then the two at 5 in call order |
| ClockScenarios.ScheduleFour | tests/asyncio_test_helpers.py:66-71 | scheduling at 5, 5, 2 and 8 queues them as 2, 5, 5, 8 with the ties in call order |
| ClockScenarios.FiringOrder | tests/asyncio_test_helpers.py:27-47 | for entries scheduled at 5, 5, 2 and 8, `advance(10)` fires them as 2, 5, 5, 8 with the ties in call order |
| ClockScenarios.ReentrantCallSoon | tests/asyncio_test_helpers.py:27-74 | a callback fired at time 1 that calls `call_soon` has its callback fired in the same advance; the clock then settles at 5 |

## Left out

- The `__class__` property (tests/asyncio_test_helpers.py:12-20) fakes an `isinstance` check through the Python runtime. It has no counterpart here.
- `__getattr__` delegation and method rebinding onto the wrapped loop (tests/asyncio_test_helpers.py:49-61) reach into a real asyncio loop, which is not part of this model. The wrapped loop is only an identifier (`LoopId`).
- Logging is I/O only.
- Callback bodies and the exceptions they may raise are not modelled. Callbacks are opaque identifiers.
- TimelessLoop.TimelessEventLoopWrapper.Advance: no callback runs inside its loop, so it does not show re-entrancy itself. Re-entrancy is modelled by `FireNext` plus the scheduling methods (`ClockScenarios.ReentrantCallSoon`) and by `VirtualClock.ReentrantCallSoonFires`.
- The `context` argument is stored but never used.
- Floating-point rounding of `_time + delay` is not modelled. Time is an exact `real`.
- `MockTransport.is_reading`, `pause_reading`, `resume_reading`, `set_write_buffer_limits`, `get_write_buffer_size` and `can_write_eof` (tests/asyncio_test_helpers.py:93-107, 115-116) are constant stubs or raise `NotImplementedError`.
- The `isinstance` assertions against asyncio base classes (tests/asyncio_test_helpers.py:123, 130, 153) become static types. The one check that can fail, a missing protocol in `get_protocol`, is the `AssertionFailed` outcome of `PretendToReceive`.

# Async channel model

A Dafny model of `Async::Channel<T>`, a thread-safe FIFO channel with an
optional capacity limit, a receive timeout and a close protocol, and of
`Async::ChannelValue<T>`, the three-way result of a receive (a value, a
timeout, or "closed").

Every read and write of the channel's state happens under its mutex. Each
call is therefore one or more atomic steps on three pieces of state: the buffered
values (`seq<T>`, front first), the limit (`int`; 0 or below means no limit)
and the closed flag. A call that would wait on the condition variable takes a
step that returns `Waits` and changes nothing. The thread takes another step
once it is notified.

- `ChannelValue.dfy` (module `ChannelValues`) holds the receive result as a
  datatype with three constructors. `Get` requires `IsOk`; `TryGet` returns
  the failure the source throws. It also holds `RawChannelValue`, the
  source's own layout (a value slot and two independent flags), used for the
  finding below.
- `Channel.dfy` (module `Channels`) holds the specification of one step as
  pure functions on `State`: `PushNext`, `PopNext`, `CloseNext`. Class
  `Channel` performs the same steps in place on a `seq<T>` field. Each method
  is proved equal to its step function and keeps the capacity invariant.
- `ChannelTraces.dfy` (module `ChannelTraces`) treats any interleaving of
  steps by any number of threads as a sequence of calls. Its lemmas hold for
  every such sequence: FIFO with exactly-once delivery, the capacity bound,
  the closed flag never reverting, and a closed channel accepting no new push.

Two step inputs replace what the model cannot see:
- `afterWait` on Push. It is false for the step that begins a call and true
  for a step that resumes it after a wait. The source tests the closed flag
  only once, before its wait loop.
- `waitTimedOut` on Pop. It is true when the step resumes a timed wait that
  reported its deadline as passed. It has no effect when the timeout is 0 or
  below, since such a call waits without a deadline.

In these places the code behaves in ways a reader might not expect, and the
model follows the code:
- A Push blocked on a full buffer is not released by `Close`. It keeps waiting
  until a Pop frees room, then appends to the closed channel and returns true
  (`Channels.CloseDoesNotReleaseBlockedPush`).
- A negative limit means no limit, like 0.
- A timeout of 0 or below waits forever.
- When a timed wait reports a timeout, Pop returns Timeout without looking at
  the buffer or the closed flag again, even if a value arrived meanwhile.

## Model

| member | source | states |
|---|---|---|
| `ChannelValues.TimeoutResult` | ChannelValue.h:9-14 | the timeout factory gives a result that is a timeout, not Ok and not closed |
| `ChannelValues.ClosedResult` | ChannelValue.h:16-21 | the closed factory gives a result that is closed, not Ok and not a timeout |
| `ChannelValues.ValueResult` | ChannelValue.h:24-25 | the value constructor gives an Ok result, neither timeout nor closed, whose Get is the value |
| `ChannelValues.ChannelValue.IsTimeout` | ChannelValue.h:45 | a timeout result carries no value and is not a closed report |
| `ChannelValues.ChannelValue.IsClosed` | ChannelValue.h:44 | a closed report carries no value and is not a timeout |
| `ChannelValues.ChannelValue.IsOk` | ChannelValue.h:43 | IsOk holds iff neither the timeout nor the closed state holds, which is exactly when the result carries a value |
| `ChannelValues.ChannelValue.Get` | ChannelValue.h:27-30 | Get is defined only on Ok results, and the result is exactly the Ok result carrying what Get returns |
| `ChannelValues.ChannelValue.TryGet` | ChannelValue.h:27-41 | reading succeeds iff the result is Ok and then yields Get; a closed result fails with "closed", a timeout with "timeout", never "unknown" |
| `ChannelValues.ExactlyOneState` | ChannelValue.h:43-45 | Ok holds iff the result carries a value, and exactly one of Ok, timeout and closed holds |
| `ChannelValues.RawChannelValue.IsOk` | ChannelValue.h:43 | as written: Ok iff neither the timeout flag nor the closed flag is set |
| `ChannelValues.RawChannelValue.IsClosed` | ChannelValue.h:44 | as written: the closed flag as stored, initialised or not |
| `ChannelValues.RawChannelValue.IsTimeout` | ChannelValue.h:45 | as written: the timeout flag as stored, initialised or not |
| `ChannelValues.RawChannelValue.Get` | ChannelValue.h:27-41 | as written over two flags: succeeds iff neither flag is set, the closed flag is tested before the timeout flag, and the "unknown" failure is never reached |
| `ChannelValues.RawTimeout` | ChannelValue.h:9-14 | as written: timeout flag set, not Ok, and the closed flag is whatever the uninitialised memory held |
| `ChannelValues.RawClosed` | ChannelValue.h:16-21 | as written: closed flag set, not Ok, and the timeout flag is whatever the uninitialised memory held |
| `ChannelValues.RawValue` | ChannelValue.h:24-25 | as written: both flags cleared, so the result is Ok and Get yields the value |
| `ChannelValues.RawTimeoutCanReadClosed` | ChannelValue.h:9-14 | a timeout result whose leftover closed flag is set is both timeout and closed, and Get reports "closed" |
| `ChannelValues.Abstract` | ChannelValue.h:43-45 | maps the two-flag layout to the three-state datatype, keeping IsClosed, IsOk and the value |
| `ChannelValues.RawAgreesWhenExclusive` | ChannelValue.h:27-45 | when at most one flag is set, the two-flag layout and the datatype agree on IsTimeout and on what Get yields |
| `ChannelValues.CorrectedFactoriesAreExclusive` | ChannelValue.h:9-21 | with the other flag cleared, the two-flag factories agree with the datatype's timeout and closed results |
| `Channels.Initial` | Channel.h:19-20 | a new channel is open and empty, stores the given limit and is within it |
| `Channels.Full` | Channel.h:49 | the condition Push waits on: only with a positive limit; a channel within its limit is full exactly when it holds that many values |
| `Channels.PushNext` | Channel.h:41-57 | Push returns false iff it starts on a closed channel; it waits iff not rejected and the positive limit is reached; otherwise it appends the value at the tail and returns true; the flag and limit never change and the bound is kept |
| `Channels.PopNext` | Channel.h:59-86 | Pop returns Timeout iff the timeout is positive and a timed wait expired; otherwise Ok with the front, removing exactly it, iff the buffer is non-empty (closed or not), Closed iff empty and closed, and waits iff empty and open; only an Ok step changes state |
| `Channels.CloseNext` | Channel.h:88-93 | Close leaves the channel closed with its buffer and limit unchanged, and changes nothing on a closed channel |
| `Channels.CloseIdempotent` | Channel.h:88-93 | closing twice is the same as closing once |
| `Channels.CloseDoesNotReleaseBlockedPush` | Channel.h:45-53 | a Push blocked on a full channel still waits after Close, and once a Pop frees room it appends to the closed channel and returns true |
| `Channels.Channel.constructor` | Channel.h:19-20 | a new channel is open, empty, within its limit, and the limit defaults to 0 |
| `Channels.Channel.Push` | Channel.h:42-57 | one Push step updates the object exactly as PushNext says: append on success, nothing otherwise; the flag is untouched |
| `Channels.Channel.Pop` | Channel.h:60-86 | one Pop step updates the object exactly as PopNext says: an Ok result is the old front and removes exactly it; other results change nothing |
| `Channels.Channel.Close` | Channel.h:89-93 | Close sets the flag and keeps the buffer |
| `Channels.Channel.IsClosed` | Channel.h:96-99 | IsClosed returns the flag and changes nothing |
| `ChannelTraces.StepConserves` | Channel.h:41-86 | in any single step, the value delivered followed by the new buffer equals the old buffer followed by the value accepted |
| `ChannelTraces.Conservation` | Channel.h:41-86 | for every sequence of steps, the values delivered followed by those still buffered are the values first buffered followed by the values accepted, in order |
| `ChannelTraces.DrainedRunDeliversEachOnce` | test/test_Channel.cpp:64-79 | from a new channel, a run that ends with an empty buffer delivered each accepted value exactly once, in acceptance order |
| `ChannelTraces.DeliveredAtMostAccepted` | Channel.h:66-85 | from a new channel, the values delivered are always a prefix of the values accepted |
| `ChannelTraces.RunPreservesBound` | Channel.h:49-53 | every sequence of steps keeps the buffer within a positive limit and leaves the limit unchanged |
| `ChannelTraces.ClosedIffCloseCalled` | Channel.h:88-93 | a run ends closed iff the channel started closed or the run contains a Close |
| `ChannelTraces.ClosedAcceptsNoNewPush` | Channel.h:45-47 | on a closed channel, pushes that start after the close accept nothing, and what is delivered is the buffered values in order |
| `ChannelTraces.DrainedClosedPop` | Channel.h:66-75 | on a closed, drained channel every Pop returns Closed or Timeout and changes nothing |
| `ChannelTraces.UnlimitedPushesAppend` | Channel.h:49-53 | on an open channel whose limit is 0 or below, fresh pushes all succeed and append their values in order |
| `ChannelTraces.PopsTakeFront` | Channel.h:66-85 | fresh pops on a buffer holding at least that many values deliver its prefix in order and leave the rest |
| `ChannelTraces.SendsThenReceives` | Channel.h:41-86 | on a new channel without a limit, n sends then n receives return the sent values in order and leave it empty |
| `ChannelTraces.CloseThenDrain` | Channel.h:66-85 | two values pushed into a channel of limit 2, then a close: two pops return them in order and the third returns Closed |

## Left out

- The mutex, the condition variable and `notify_all`/`wait`/`wait_until` (Channel.h:37-38, 50, 54, 72, 77, 83, 92): each call is a sequence of atomic steps, and an interleaving of threads is a sequence of calls. Which step a waiting thread takes after a notification, and whether it ever takes one, is up to the scheduler and not modelled: the model proves safety properties, not that every blocked call eventually returns.
- Which steps belong to which call: a run is any sequence of `PushCall`, `PopCall` and `CloseCall` steps, and nothing ties a resumed step (`afterWait` or `waitTimedOut` true) to an earlier `Waits` step of the same call. Runs therefore include steps no thread can take, such as a resumed Push on a channel that was closed before the call began. The run lemmas hold over this larger set, and so over the real interleavings; `ChannelTraces.ClosedAcceptsNoNewPush` excludes resumed pushes for that reason.
- The clock (Channel.h:61-62): the deadline arithmetic is replaced by the `waitTimedOut` input. Nothing relates it to elapsed time, nor requires later steps of one call to agree on it.
- `shared_ptr`/`weak_ptr` ownership and the destructor (Channel.h:15-16, 22-24): destruction calls `Close`, which is modelled as an operation of its own.
- The heap-allocated `std::runtime_error` objects (ChannelValue.h:33-40): a failed read is a precondition (`Get`) or a `Fails` value (`TryGet`, `RawChannelValue.Get`), not an exception.
- The "unknown" failure (ChannelValue.h:40): it is dead code. `ChannelValues.ChannelValue.TryGet` has no such branch, because a three-state result that is not Ok is a timeout or closed. `ChannelValues.RawChannelValue.Get` keeps the branch as written and proves it is never taken, since a result that is not Ok has a flag set.
- Integer widths: the limit and the timeout are unbounded integers. The source compares the `int` limit with the deque's `size_t` only when the limit is positive, so the conversion there is exact. Overflow of `now + timeout` belongs to the clock, which is left out.
- The test program test/test_Channel.cpp (threads, logging, a static counter): only its final count informs `ChannelTraces.DrainedRunDeliversEachOnce`.

## Findings

| source | as written | input that shows it | evidently intended | confidence | as-written member | corrected member |
|---|---|---|---|---|---|---|
| ChannelValue.h:9-14 | `Timeout()` starts from the private default constructor, which initialises neither flag (ChannelValue.h:48), and sets only `m_timeout`; `Closed()` (ChannelValue.h:16-21) likewise sets only `m_closed` | a `Timeout()` result whose uninitialised `m_closed` holds a non-zero byte: `IsClosed()` is true as well as `IsTimeout()`, and `Get()` throws "Channel is closed" instead of "Timeout failure" | each factory clears the other flag, so a result is in exactly one state | medium; reading an uninitialised bool is undefined behaviour, so what it yields depends on the compiler; not executed | `ChannelValues.RawTimeoutCanReadClosed` | `ChannelValues.ExactlyOneState` |

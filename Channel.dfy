/** The bounded FIFO channel (Async::Channel<T>).
    Every read and write of the channel's state happens under its mutex, so
    each call is modelled as atomic steps on three pieces of state: the
    buffered values, the limit and the closed flag. A call that would wait on
    the condition variable takes a step that returns `Waits` and changes
    nothing; the thread retries with another step once it is notified. The
    pure functions below are the specification of one step; class `Channel`
    performs the same steps in place. */
module Channels {
  import opened ChannelValues

  /** The channel's state: the buffer front first, the limit (0 or below
      means no limit) and whether the channel was closed. */
  datatype State<T> = State(values: seq<T>, limitSize: int, closed: bool)

  /** The condition Push waits on: a positive limit that the buffer has
      reached. A channel within its limit is full only when holding exactly
      that many values, and a channel without a limit is never full. */
  predicate Full<T>(s: State<T>)
    ensures Full(s) ==> s.limitSize > 0
    ensures Full(s) && Bounded(s) ==> |s.values| == s.limitSize
    ensures s.limitSize > 0 && |s.values| == s.limitSize ==> Full(s)
  {
    s.limitSize > 0 && |s.values| >= s.limitSize
  }

  /** The capacity invariant: a positive limit is never exceeded. */
  predicate Bounded<T>(s: State<T>)
  {
    s.limitSize > 0 ==> |s.values| <= s.limitSize
  }

  /** One atomic step of a call that may block: the call returns a result,
      or it must wait to be notified. */
  datatype Step<R> = Returns(result: R) | Waits

  /** The state after a step, and what the step did. */
  datatype Transition<T, R> = Transition(next: State<T>, step: Step<R>)

  /** A new channel: open, empty, with the given limit. */
  function Initial<T>(limitSize: int): (s: State<T>)
    ensures s.values == [] && !s.closed && s.limitSize == limitSize
    ensures Bounded(s) && !Full(s)
  {
    State([], limitSize, false)
  }

  /** One step of Push(t). `afterWait` is false for the step that begins the
      call and true for a step that resumes it after a wait: the closed flag is
      tested only on entry, so a resumed Push never returns false. */
  function PushNext<T>(s: State<T>, t: T, afterWait: bool): (o: Transition<T, bool>)
    ensures o.step == Returns(false) <==> !afterWait && s.closed
    ensures o.step == Waits <==> (afterWait || !s.closed) && Full(s)
    ensures o.step == Returns(true) <==> (afterWait || !s.closed) && !Full(s)
    ensures o.step == Returns(true) ==> o.next.values == s.values + [t]
    ensures o.step != Returns(true) ==> o.next == s
    ensures o.next.closed == s.closed && o.next.limitSize == s.limitSize
    ensures Bounded(s) ==> Bounded(o.next)
  {
    if !afterWait && s.closed then Transition(s, Returns(false))
    else if Full(s) then Transition(s, Waits)
    else Transition(s.(values := s.values + [t]), Returns(true))
  }

  /** One step of Pop(timeoutMilliseconds). `waitTimedOut` says that the step
      resumes a timed wait that reported its deadline as passed; it is false
      on entry and after a notification, and means nothing when the timeout
      is not positive (the call then waits without a deadline). */
  function PopNext<T>(s: State<T>, timeoutMilliseconds: int, waitTimedOut: bool)
    : (o: Transition<T, ChannelValue<T>>)
    ensures o.step.Returns? && o.step.result.IsTimeout()
            <==> timeoutMilliseconds > 0 && waitTimedOut
    ensures o.step.Returns? && o.step.result.IsOk()
            <==> !(timeoutMilliseconds > 0 && waitTimedOut) && s.values != []
    ensures o.step.Returns? && o.step.result.IsOk() ==>
              s.values != [] && o.step.result.Get() == s.values[0]
              && o.next.values == s.values[1..]
    ensures o.step.Returns? && o.step.result.IsClosed()
            <==> !(timeoutMilliseconds > 0 && waitTimedOut) && s.values == [] && s.closed
    ensures o.step.Waits?
            <==> !(timeoutMilliseconds > 0 && waitTimedOut) && s.values == [] && !s.closed
    ensures !(o.step.Returns? && o.step.result.IsOk()) ==> o.next == s
    ensures o.next.closed == s.closed && o.next.limitSize == s.limitSize
    ensures Bounded(s) ==> Bounded(o.next)
  {
    if timeoutMilliseconds > 0 && waitTimedOut then Transition(s, Returns(TimeoutResult()))
    else if s.values != [] then Transition(s.(values := s.values[1..]), Returns(ValueResult(s.values[0])))
    else if s.closed then Transition(s, Returns(ClosedResult()))
    else Transition(s, Waits)
  }

  /** Close(): the channel becomes closed; its buffer and limit stay. */
  function CloseNext<T>(s: State<T>): (c: State<T>)
    ensures c.closed
    ensures c.values == s.values && c.limitSize == s.limitSize
    ensures s.closed ==> c == s
  {
    s.(closed := true)
  }

  /** Closing twice is closing once. */
  lemma CloseIdempotent<T>(s: State<T>)
    ensures CloseNext(CloseNext(s)) == CloseNext(s)
  {
  }

  /** A Push blocked on a full buffer is not released by Close: resumed after
      the close it still waits, and once a Pop frees room it appends to the
      closed channel and returns true. */
  lemma CloseDoesNotReleaseBlockedPush<T>(s: State<T>, t: T, timeoutMilliseconds: int)
    requires Bounded(s) && !s.closed && Full(s)
    ensures PushNext(s, t, false).step == Waits
    ensures PushNext(CloseNext(s), t, true).step == Waits
    ensures var popped := PopNext(CloseNext(s), timeoutMilliseconds, false).next;
            popped.closed
            && PushNext(popped, t, true).step == Returns(true)
            && PushNext(popped, t, true).next.values == s.values[1..] + [t]
  {
  }

  /** The channel object. `values` is the source's deque, changed in place
      by appending at the tail and removing at the front. */
  class Channel<T> {
    const limitSize: int
    var values: seq<T>
    var closed: bool

    /** The state the pure step functions speak about. */
    function Model(): State<T>
      reads this
    {
      State(values, limitSize, closed)
    }

    /** The object invariant: the buffer respects a positive limit. */
    ghost predicate Valid()
      reads this
    {
      Bounded(Model())
    }

    /** A new channel is open and empty; the limit defaults to 0, no limit. */
    constructor (limitSize: int := 0)
      ensures Valid()
      ensures this.limitSize == limitSize && values == [] && !closed
      ensures Model() == Initial(limitSize)
    {
      this.limitSize := limitSize;
      values := [];
      closed := false;
    }

    /** One step of Push(t); see PushNext for `afterWait`. */
    method Push(t: T, afterWait: bool := false) returns (r: Step<bool>)
      requires Valid()
      modifies this
      ensures Valid()
      ensures Transition(Model(), r) == PushNext(old(Model()), t, afterWait)
      ensures r == Returns(true) ==> values == old(values) + [t]
      ensures r != Returns(true) ==> values == old(values)
      ensures closed == old(closed)
    {
      if !afterWait && closed {
        return Returns(false);
      }
      if limitSize > 0 && |values| >= limitSize {
        return Waits;
      }
      values := values + [t];
      return Returns(true);
    }

    /** One step of Pop(timeoutMilliseconds); see PopNext for `waitTimedOut`. */
    method Pop(timeoutMilliseconds: int := 0, waitTimedOut: bool := false)
      returns (r: Step<ChannelValue<T>>)
      requires Valid()
      modifies this
      ensures Valid()
      ensures Transition(Model(), r) == PopNext(old(Model()), timeoutMilliseconds, waitTimedOut)
      ensures r.Returns? && r.result.IsOk() ==>
                old(values) != [] && r.result.Get() == old(values)[0] && values == old(values)[1..]
      ensures !(r.Returns? && r.result.IsOk()) ==> values == old(values)
      ensures closed == old(closed)
    {
      if timeoutMilliseconds > 0 && waitTimedOut {
        return Returns(TimeoutResult());
      }
      if values != [] {
        r := Returns(ValueResult(values[0]));
        values := values[1..];
        return;
      }
      if closed {
        return Returns(ClosedResult());
      }
      return Waits;
    }

    /** Close(): idempotent, and the buffer stays receivable. */
    method Close()
      requires Valid()
      modifies this
      ensures Valid()
      ensures Model() == CloseNext(old(Model()))
      ensures closed && values == old(values)
    {
      closed := true;
    }

    /** IsClosed(): reads the flag and changes nothing. */
    method IsClosed() returns (b: bool)
      ensures b == closed
      ensures b == Model().closed
    {
      b := closed;
    }
  }
}

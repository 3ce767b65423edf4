/** The result of one receive attempt on a channel (Async::ChannelValue<T>).
    A result is a received value, a timeout, or the report that the channel
    is closed and drained. Reading the value of a result that holds none is a
    programmer error: the source throws, the model makes it a precondition
    (`Get`) or an explicit failure (`TryGet`). */
module ChannelValues {

  /** The three failures the source can throw from Get, in its own order. */
  datatype Failure = ChannelIsClosed | TimeoutFailure | UnknownFailure

  /** What reading a result yields: its value, or the failure the source throws. */
  datatype Read<T> = Got(got: T) | Fails(failure: Failure)

  /** A receive result. The three constructors make the states mutually
      exclusive, which is what the source's factories intend. */
  datatype ChannelValue<T> = Value(value: T) | Timeout | Closed
  {
    /** A timeout carries no value and is not a closed report. */
    predicate IsTimeout()
      ensures IsTimeout() ==> !Value? && !Closed?
    {
      Timeout?
    }

    /** A closed report carries no value and is not a timeout. */
    predicate IsClosed()
      ensures IsClosed() ==> !Value? && !Timeout?
    {
      Closed?
    }

    /** A result is Ok when it is neither a timeout nor a closed report,
        which is exactly when it carries a value. */
    predicate IsOk()
      ensures IsOk() <==> Value?
    {
      !IsTimeout() && !IsClosed()
    }

    /** The received value; only an Ok result has one. */
    function Get(): (t: T)
      requires IsOk()
      ensures this == Value(t)
    {
      value
    }

    /** Get with the failure made explicit: a closed report is recognised
        before a timeout, and the failure names which state it met. */
    function TryGet(): (r: Read<T>)
      ensures r.Got? <==> IsOk()
      ensures r.Got? ==> IsOk() && r.got == Get()
      ensures IsClosed() ==> r == Fails(ChannelIsClosed)
      ensures IsTimeout() ==> r == Fails(TimeoutFailure)
      ensures r != Fails(UnknownFailure)
    {
      if IsOk() then Got(value)
      else if IsClosed() then Fails(ChannelIsClosed)
      else Fails(TimeoutFailure)
    }
  }

  /** The factory for a timed-out receive. */
  function TimeoutResult<T>(): (r: ChannelValue<T>)
    ensures r.IsTimeout() && !r.IsOk() && !r.IsClosed()
  {
    Timeout
  }

  /** The factory for a receive on a closed, drained channel. */
  function ClosedResult<T>(): (r: ChannelValue<T>)
    ensures r.IsClosed() && !r.IsOk() && !r.IsTimeout()
  {
    Closed
  }

  /** The value constructor: an Ok result carrying `t`. */
  function ValueResult<T>(t: T): (r: ChannelValue<T>)
    ensures r.IsOk() && !r.IsTimeout() && !r.IsClosed()
    ensures r.Get() == t
  {
    Value(t)
  }

  /** Every result is in exactly one of the three states, and Ok means it holds a value. */
  lemma ExactlyOneState<T>(v: ChannelValue<T>)
    ensures v.IsOk() <==> v.Value?
    ensures (if v.IsOk() then 1 else 0) + (if v.IsTimeout() then 1 else 0)
          + (if v.IsClosed() then 1 else 0) == 1
  {
  }

  // ---------------------------------------------------------------------
  // The source's representation, as written: a value slot and two
  // independent flags. The private default constructor initialises neither
  // flag, and each factory then sets only one of them, so the other flag of
  // a factory-made result holds whatever the memory held.
  // ---------------------------------------------------------------------

  /** A ChannelValue object as the source lays it out. */
  datatype RawChannelValue<T> = RawChannelValue(slot: T, timeout: bool, closed: bool)
  {
    /** Ok as written: neither flag set. */
    predicate IsOk()
      ensures IsOk() <==> !timeout && !closed
    {
      !timeout && !closed
    }

    /** The closed flag, read as it is, initialised or not. */
    predicate IsClosed()
      ensures IsClosed() == closed
    {
      closed
    }

    /** The timeout flag, read as it is, initialised or not. */
    predicate IsTimeout()
      ensures IsTimeout() == timeout
    {
      timeout
    }

    /** Get as written: Ok first, then the closed flag, then the timeout
        flag, and an "unknown" failure when none of the three tests holds;
        that last branch is dead, since a result that is not Ok has a flag set. */
    function Get(): (r: Read<T>)
      ensures r.Got? <==> IsOk()
      ensures r.Got? ==> r.got == slot
      ensures !IsOk() && IsClosed() ==> r == Fails(ChannelIsClosed)
      ensures !IsClosed() && IsTimeout() ==> r == Fails(TimeoutFailure)
      ensures r != Fails(UnknownFailure)
    {
      if IsOk() then Got(slot)
      else if IsClosed() then Fails(ChannelIsClosed)
      else if IsTimeout() then Fails(TimeoutFailure)
      else Fails(UnknownFailure)
    }
  }

  /** Timeout() as written: `slot` is the default-constructed value and
      `leftover` whatever the uninitialised closed flag holds. */
  function RawTimeout<T>(slot: T, leftover: bool): (r: RawChannelValue<T>)
    ensures r.IsTimeout() && !r.IsOk()
    ensures r.IsClosed() == leftover
  {
    RawChannelValue(slot, true, leftover)
  }

  /** Closed() as written: the timeout flag is left uninitialised. */
  function RawClosed<T>(slot: T, leftover: bool): (r: RawChannelValue<T>)
    ensures r.IsClosed() && !r.IsOk()
    ensures r.IsTimeout() == leftover
  {
    RawChannelValue(slot, leftover, true)
  }

  /** The value constructor as written: both flags cleared. */
  function RawValue<T>(t: T): (r: RawChannelValue<T>)
    ensures r.IsOk() && r.Get() == Got(t)
  {
    RawChannelValue(t, false, false)
  }

  /** The discrepancy: a timed-out result whose uninitialised closed flag
      reads as set reports itself closed as well, and Get then throws the
      "closed" failure instead of the "timeout" one. */
  lemma RawTimeoutCanReadClosed<T>(slot: T)
    ensures RawTimeout(slot, true).IsTimeout() && RawTimeout(slot, true).IsClosed()
    ensures RawTimeout(slot, true).Get() == Fails(ChannelIsClosed)
  {
  }

  /** The state a raw result stands for, reading the closed flag first as Get does. */
  function Abstract<T>(raw: RawChannelValue<T>): (v: ChannelValue<T>)
    ensures v.IsClosed() <==> raw.IsClosed()
    ensures v.IsOk() <==> raw.IsOk()
    ensures v.IsOk() ==> v.Get() == raw.slot
  {
    if raw.closed then Closed
    else if raw.timeout then Timeout
    else Value(raw.slot)
  }

  /** When at most one flag is set, the raw layout and the three-state
      datatype agree on every query and on what Get yields; the corrected
      factories always produce such flags. */
  lemma RawAgreesWhenExclusive<T>(raw: RawChannelValue<T>)
    requires !(raw.timeout && raw.closed)
    ensures Abstract(raw).IsTimeout() == raw.IsTimeout()
    ensures Abstract(raw).TryGet() == raw.Get()
  {
  }

  /** The corrected factories, read through the raw layout, set exactly one flag. */
  lemma CorrectedFactoriesAreExclusive<T>(slot: T)
    ensures RawTimeout(slot, false).Get() == TimeoutResult<T>().TryGet()
    ensures RawClosed(slot, false).Get() == ClosedResult<T>().TryGet()
    ensures Abstract(RawTimeout(slot, false)) == TimeoutResult()
    ensures Abstract(RawClosed(slot, false)) == ClosedResult()
  {
  }
}

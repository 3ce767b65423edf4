/** Runs of a channel: any interleaving of the atomic steps that producer,
    consumer and closing threads take under the channel's mutex, as one
    sequence of calls. The results here hold for every such sequence, so
    they hold whatever order the scheduler picks. */
module ChannelTraces {
  import opened ChannelValues
  import opened Channels

  /** One atomic step taken by some thread. */
  datatype Call<T> =
    | PushCall(t: T, afterWait: bool)
    | PopCall(timeoutMilliseconds: int, waitTimedOut: bool)
    | CloseCall

  /** The state after one call. */
  function Apply<T>(s: State<T>, c: Call<T>): State<T>
  {
    match c
    case PushCall(t, afterWait) => PushNext(s, t, afterWait).next
    case PopCall(timeoutMilliseconds, waitTimedOut) => PopNext(s, timeoutMilliseconds, waitTimedOut).next
    case CloseCall => CloseNext(s)
  }

  /** The value a call put into the channel: that of a Push returning true. */
  function Accepted<T>(s: State<T>, c: Call<T>): (a: seq<T>)
    ensures |a| <= 1
    ensures a != [] ==> c.PushCall? && a == [c.t]
  {
    if c.PushCall? && PushNext(s, c.t, c.afterWait).step == Returns(true) then [c.t] else []
  }

  /** The value a call handed out: that of a Pop returning an Ok result. */
  function Delivered<T>(s: State<T>, c: Call<T>): (d: seq<T>)
    ensures |d| <= 1
    ensures d != [] ==> c.PopCall?
  {
    if c.PopCall? then
      var step := PopNext(s, c.timeoutMilliseconds, c.waitTimedOut).step;
      if step.Returns? && step.result.Value? then [step.result.value] else []
    else []
  }

  /** The state after a sequence of calls. */
  function Run<T>(s: State<T>, calls: seq<Call<T>>): State<T>
    decreases |calls|
  {
    if calls == [] then s else Run(Apply(s, calls[0]), calls[1..])
  }

  /** The values accepted by the pushes of a run, in order. */
  function AcceptedBy<T>(s: State<T>, calls: seq<Call<T>>): seq<T>
    decreases |calls|
  {
    if calls == [] then [] else Accepted(s, calls[0]) + AcceptedBy(Apply(s, calls[0]), calls[1..])
  }

  /** The values delivered by the pops of a run, in order. */
  function DeliveredBy<T>(s: State<T>, calls: seq<Call<T>>): seq<T>
    decreases |calls|
  {
    if calls == [] then [] else Delivered(s, calls[0]) + DeliveredBy(Apply(s, calls[0]), calls[1..])
  }

  /** One call neither loses nor invents nor reorders a value: what it
      delivers followed by the new buffer is the old buffer followed by what
      it accepts. */
  lemma StepConserves<T>(s: State<T>, c: Call<T>)
    ensures Delivered(s, c) + Apply(s, c).values == s.values + Accepted(s, c)
  {
  }

  /** FIFO and exactly-once, for every run: the values delivered followed by
      the values still buffered are the values buffered at the start followed
      by the values accepted, in the same order. */
  lemma {:induction false} Conservation<T>(s: State<T>, calls: seq<Call<T>>)
    ensures DeliveredBy(s, calls) + Run(s, calls).values == s.values + AcceptedBy(s, calls)
    decreases |calls|
  {
    if calls != [] {
      var c, s1 := calls[0], Apply(s, calls[0]);
      StepConserves(s, c);
      Conservation(s1, calls[1..]);
      calc {
        DeliveredBy(s, calls) + Run(s, calls).values;
        (Delivered(s, c) + DeliveredBy(s1, calls[1..])) + Run(s1, calls[1..]).values;
        Delivered(s, c) + (DeliveredBy(s1, calls[1..]) + Run(s1, calls[1..]).values);
        Delivered(s, c) + (s1.values + AcceptedBy(s1, calls[1..]));
        (Delivered(s, c) + s1.values) + AcceptedBy(s1, calls[1..]);
        (s.values + Accepted(s, c)) + AcceptedBy(s1, calls[1..]);
        s.values + AcceptedBy(s, calls);
      }
    }
  }

  /** Starting from a new channel, a run that leaves the buffer empty has
      delivered every accepted value exactly once and in the order accepted. */
  lemma DrainedRunDeliversEachOnce<T>(limitSize: int, calls: seq<Call<T>>)
    requires Run(Initial(limitSize), calls).values == []
    ensures DeliveredBy(Initial(limitSize), calls) == AcceptedBy(Initial(limitSize), calls)
  {
    var s := Initial<T>(limitSize);
    Conservation(s, calls);
    assert DeliveredBy(s, calls) + [] == DeliveredBy(s, calls);
  }

  /** A run never delivers more values than were buffered or accepted. */
  lemma DeliveredAtMostAccepted<T>(limitSize: int, calls: seq<Call<T>>)
    ensures |DeliveredBy(Initial(limitSize), calls)| <= |AcceptedBy(Initial(limitSize), calls)|
    ensures DeliveredBy(Initial(limitSize), calls)
            == AcceptedBy(Initial(limitSize), calls)[..|DeliveredBy(Initial(limitSize), calls)|]
  {
    var s := Initial<T>(limitSize);
    Conservation(s, calls);
    var d, a := DeliveredBy(s, calls), AcceptedBy(s, calls);
    assert d + Run(s, calls).values == a;
    assert a[..|d|] == (d + Run(s, calls).values)[..|d|];
  }

  /** The capacity invariant holds after every run that starts within it. */
  lemma {:induction false} RunPreservesBound<T>(s: State<T>, calls: seq<Call<T>>)
    requires Bounded(s)
    ensures Bounded(Run(s, calls))
    ensures Run(s, calls).limitSize == s.limitSize
    decreases |calls|
  {
    if calls != [] {
      assert Bounded(Apply(s, calls[0])) && Apply(s, calls[0]).limitSize == s.limitSize;
      RunPreservesBound(Apply(s, calls[0]), calls[1..]);
    }
  }

  /** Whether some call of the run is a Close. */
  predicate CloseIn<T>(calls: seq<Call<T>>)
  {
    exists i :: 0 <= i < |calls| && calls[i].CloseCall?
  }

  /** The closed flag never reverts: a run ends closed exactly when the
      channel was closed at its start or the run contains a Close. */
  lemma {:induction false} ClosedIffCloseCalled<T>(s: State<T>, calls: seq<Call<T>>)
    ensures Run(s, calls).closed <==> s.closed || CloseIn(calls)
    decreases |calls|
  {
    if calls != [] {
      ClosedIffCloseCalled(Apply(s, calls[0]), calls[1..]);
      assert Apply(s, calls[0]).closed <==> s.closed || calls[0].CloseCall?;
      if CloseIn(calls[1..]) {
        var i :| 0 <= i < |calls[1..]| && calls[1..][i].CloseCall?;
        assert calls[i + 1].CloseCall?;
      }
      if CloseIn(calls) && !calls[0].CloseCall? {
        var i :| 0 <= i < |calls| && calls[i].CloseCall?;
        assert calls[1..][i - 1].CloseCall?;
      }
    }
  }

  /** Whether every Push of the run is the first step of its call. */
  predicate OnlyFreshPushes<T>(calls: seq<Call<T>>)
  {
    forall i :: 0 <= i < |calls| && calls[i].PushCall? ==> !calls[i].afterWait
  }

  /** A closed channel rejects every Push that starts after the close: such a
      run accepts nothing, and every value it delivers was buffered before
      the close, in order. */
  lemma {:induction false} ClosedAcceptsNoNewPush<T>(s: State<T>, calls: seq<Call<T>>)
    requires s.closed && OnlyFreshPushes(calls)
    ensures AcceptedBy(s, calls) == []
    ensures DeliveredBy(s, calls) + Run(s, calls).values == s.values
    decreases |calls|
  {
    if calls != [] {
      var s1 := Apply(s, calls[0]);
      assert s1.closed;
      assert Accepted(s, calls[0]) == [];
      assert OnlyFreshPushes(calls[1..]) by {
        forall i | 0 <= i < |calls[1..]| && calls[1..][i].PushCall?
          ensures !calls[1..][i].afterWait
        {
          assert calls[1..][i] == calls[i + 1];
        }
      }
      ClosedAcceptsNoNewPush(s1, calls[1..]);
    }
    Conservation(s, calls);
  }

  /** Once a closed channel is drained, every Pop reports Closed, or Timeout
      when it resumes a timed wait that expired. */
  lemma DrainedClosedPop<T>(s: State<T>, timeoutMilliseconds: int, waitTimedOut: bool)
    requires s.closed && s.values == []
    ensures PopNext(s, timeoutMilliseconds, waitTimedOut).next == s
    ensures var step := PopNext(s, timeoutMilliseconds, waitTimedOut).step;
            step.Returns? && (step.result.IsClosed() || step.result.IsTimeout())
  {
  }

  /** Pushes that each start fresh, one per value. */
  function Pushes<T>(xs: seq<T>): (calls: seq<Call<T>>)
    ensures |calls| == |xs|
  {
    if xs == [] then [] else [PushCall(xs[0], false)] + Pushes(xs[1..])
  }

  /** `n` pops that each start fresh with the given timeout. */
  function Pops<T>(n: nat, timeoutMilliseconds: int): (calls: seq<Call<T>>)
    ensures |calls| == n
  {
    if n == 0 then [] else [PopCall(timeoutMilliseconds, false)] + Pops(n - 1, timeoutMilliseconds)
  }

  /** Running two sequences of calls one after the other. */
  lemma {:induction false} RunAppend<T>(s: State<T>, a: seq<Call<T>>, b: seq<Call<T>>)
    ensures Run(s, a + b) == Run(Run(s, a), b)
    ensures AcceptedBy(s, a + b) == AcceptedBy(s, a) + AcceptedBy(Run(s, a), b)
    ensures DeliveredBy(s, a + b) == DeliveredBy(s, a) + DeliveredBy(Run(s, a), b)
    decreases |a|
  {
    if a == [] {
      assert a + b == b;
    } else {
      assert (a + b)[0] == a[0] && (a + b)[1..] == a[1..] + b;
      RunAppend(Apply(s, a[0]), a[1..], b);
    }
  }

  /** On an open channel without a limit (0 or below), fresh pushes all
      succeed and append their values in order. */
  lemma {:induction false} UnlimitedPushesAppend<T>(s: State<T>, xs: seq<T>)
    requires !s.closed && s.limitSize <= 0
    ensures Run(s, Pushes(xs)) == s.(values := s.values + xs)
    ensures AcceptedBy(s, Pushes(xs)) == xs
    ensures DeliveredBy(s, Pushes(xs)) == []
    decreases |xs|
  {
    if xs == [] {
      assert s.values + xs == s.values;
    } else {
      var calls := Pushes(xs);
      var s1 := State(s.values + [xs[0]], s.limitSize, false);
      PushStepAppends(s, xs[0]);
      assert calls == [PushCall(xs[0], false)] + Pushes(xs[1..]);
      assert calls[0] == PushCall(xs[0], false);
      assert calls[1..] == Pushes(xs[1..]);
      UnlimitedPushesAppend(s1, xs[1..]);
      assert Apply(s, calls[0]) == s1;
      assert Run(s, calls) == Run(s1, calls[1..]);
      assert AcceptedBy(s, calls) == [xs[0]] + AcceptedBy(s1, calls[1..]);
      assert DeliveredBy(s, calls) == DeliveredBy(s1, calls[1..]);
      assert s1.values + xs[1..] == s.values + xs;
      assert [xs[0]] + xs[1..] == xs;
    }
  }

  /** A fresh push on an open channel without a limit appends its value. */
  lemma PushStepAppends<T>(s: State<T>, x: T)
    requires !s.closed && s.limitSize <= 0
    ensures Apply(s, PushCall(x, false)) == s.(values := s.values + [x])
    ensures Accepted(s, PushCall(x, false)) == [x]
    ensures Delivered(s, PushCall(x, false)) == []
  {
  }

  /** Fresh pops that find the buffer non-empty each take its front. */
  lemma {:induction false} PopsTakeFront<T>(s: State<T>, n: nat, timeoutMilliseconds: int)
    requires n <= |s.values|
    ensures Run(s, Pops(n, timeoutMilliseconds)) == s.(values := s.values[n..])
    ensures DeliveredBy(s, Pops(n, timeoutMilliseconds)) == s.values[..n]
    ensures AcceptedBy(s, Pops(n, timeoutMilliseconds)) == []
    decreases n
  {
    if n > 0 {
      var calls := Pops<T>(n, timeoutMilliseconds);
      var s1 := Apply(s, calls[0]);
      assert s1 == s.(values := s.values[1..]);
      assert Delivered(s, calls[0]) == [s.values[0]];
      assert calls[1..] == Pops(n - 1, timeoutMilliseconds);
      PopsTakeFront(s1, n - 1, timeoutMilliseconds);
      assert s.values[1..][n - 1..] == s.values[n..];
      assert [s.values[0]] + s.values[1..][..n - 1] == s.values[..n];
    }
  }

  /** Sequential sends followed by as many receives on a new channel without
      a limit return the values sent, in the order sent, and leave it empty. */
  lemma SendsThenReceives<T>(limitSize: int, xs: seq<T>, timeoutMilliseconds: int)
    requires limitSize <= 0
    ensures var calls := Pushes(xs) + Pops(|xs|, timeoutMilliseconds);
            DeliveredBy(Initial(limitSize), calls) == xs
            && AcceptedBy(Initial(limitSize), calls) == xs
            && Run(Initial(limitSize), calls).values == []
  {
    var s := Initial<T>(limitSize);
    var pops := Pops<T>(|xs|, timeoutMilliseconds);
    RunAppend(s, Pushes(xs), pops);
    UnlimitedPushesAppend(s, xs);
    assert Run(s, Pushes(xs)).values == xs;
    PopsTakeFront(Run(s, Pushes(xs)), |xs|, timeoutMilliseconds);
    assert xs[..|xs|] == xs;
  }

  /** Two values pushed into a channel of limit 2, then a close: the next two
      pops return them in order whatever timeout they use, and the third
      reports Closed. */
  lemma {:induction false} CloseThenDrain<T>(v1: T, v2: T, timeoutMilliseconds: int)
    ensures var s := Run(Initial(2), [PushCall(v1, false), PushCall(v2, false), CloseCall]);
            s == State([v1, v2], 2, true)
            && DeliveredBy(s, Pops(3, timeoutMilliseconds)) == [v1, v2]
            && Run(s, Pops(3, timeoutMilliseconds)) == State([], 2, true)
            && PopNext(Run(s, Pops(2, timeoutMilliseconds)), timeoutMilliseconds, false).step
               == Returns(Closed)
  {
    var s := State([v1, v2], 2, true);
    assert Run(Initial(2), [PushCall(v1, false), PushCall(v2, false), CloseCall]) == s by {
      var s0, s1, s2 := Initial<T>(2), State([v1], 2, false), State([v1, v2], 2, false);
      var calls := [PushCall(v1, false), PushCall(v2, false), CloseCall];
      assert Apply(s0, calls[0]) == s1 && Apply(s1, calls[1]) == s2 && Apply(s2, calls[2]) == s;
      assert calls[1..][1..][1..] == [];
      assert Run(s, calls[1..][1..][1..]) == s;
      assert Run(s2, calls[1..][1..]) == s;
      assert Run(s1, calls[1..]) == s;
    }
    PopsTakeFront(s, 2, timeoutMilliseconds);
    assert s.values[2..] == [];
    var drained: State<T> := State([], 2, true);
    var calls := Pops<T>(3, timeoutMilliseconds);
    assert calls == Pops(2, timeoutMilliseconds) + [PopCall(timeoutMilliseconds, false)];
    RunAppend(s, Pops(2, timeoutMilliseconds), [PopCall(timeoutMilliseconds, false)]);
    assert Run(drained, [PopCall(timeoutMilliseconds, false)]) == drained;
    assert DeliveredBy(drained, [PopCall(timeoutMilliseconds, false)]) == [];
    assert s.values[..2] == [v1, v2];
  }
}

/** Properties of sequences of handler calls on the service state. */
module Properties {
  import opened Handlers

  /** The state after calling the handlers of `hs` one after another, from `s`. */
  function Run(s: State, hs: seq<Handler>): State
    decreases |hs|
  {
    if hs == [] then s else Run(Handle(s, hs[0]).0, hs[1..])
  }

  /** Every sequence of handler calls keeps the LED at "ON"/"OFF" and the count non-negative. */
  lemma {:induction false} RunPreservesInvariant(s: State, hs: seq<Handler>)
    requires Invariant(s)
    ensures Invariant(Run(s, hs))
    decreases |hs|
  {
    if hs != [] {
      RunPreservesInvariant(Handle(s, hs[0]).0, hs[1..]);
    }
  }

  /** In particular every state reachable from process start satisfies the invariant. */
  lemma ReachableStatesSatisfyInvariant(hs: seq<Handler>)
    ensures Invariant(Run(Initial, hs))
  {
    RunPreservesInvariant(Initial, hs);
  }

  /** Running one more handler is one more step after the run. */
  lemma {:induction false} RunAppend(s: State, hs: seq<Handler>, h: Handler)
    ensures Run(s, hs + [h]) == Handle(Run(s, hs), h).0
    decreases |hs|
  {
    if hs == [] {
      assert hs + [h] == [h];
    } else {
      assert (hs + [h])[1..] == hs[1..] + [h];
      RunAppend(Handle(s, hs[0]).0, hs[1..], h);
    }
  }

  /** Reference definition of the LED state after `hs`: the value written by the
      last LED setter in `hs`, or `initial` when `hs` holds no setter. */
  function LastLedWrite(initial: string, hs: seq<Handler>): string
    decreases |hs|
  {
    if hs == [] then initial
    else
      match hs[|hs| - 1]
      case TurnLedOn => LedOn
      case TurnLedOff => LedOff
      case _ => LastLedWrite(initial, hs[..|hs| - 1])
  }

  /** Last write wins: after any sequence of calls the LED holds the value set by the last on/off call. */
  lemma {:induction false} LastWriteWins(s: State, hs: seq<Handler>)
    ensures Run(s, hs).led == LastLedWrite(s.led, hs)
    decreases |hs|
  {
    if hs != [] {
      var init, last := hs[..|hs| - 1], hs[|hs| - 1];
      assert hs == init + [last];
      RunAppend(s, init, last);
      LastWriteWins(s, init);
    }
  }

  /** Without any on/off call the LED keeps its value; from process start it stays "OFF". */
  lemma {:induction false} LedUntouchedWithoutSetters(s: State, hs: seq<Handler>)
    requires forall i :: 0 <= i < |hs| ==> !hs[i].IsLedSetter()
    ensures Run(s, hs).led == s.led
    ensures s == Initial ==> Run(s, hs).led == LedOff
    decreases |hs|
  {
    if hs != [] {
      LedUntouchedWithoutSetters(Handle(s, hs[0]).0, hs[1..]);
    }
  }

  /** Calls that do not touch the counter leave it as it was (in particular any sequence of LED calls). */
  lemma {:induction false} CountUntouchedWithoutMutators(s: State, hs: seq<Handler>)
    requires forall i :: 0 <= i < |hs| ==> !hs[i].IsCounterMutator()
    ensures Run(s, hs).count == s.count
    decreases |hs|
  {
    if hs != [] {
      CountUntouchedWithoutMutators(Handle(s, hs[0]).0, hs[1..]);
    }
  }

  /** Reader calls change nothing at all. */
  lemma {:induction false} ReadersChangeNothing(s: State, hs: seq<Handler>)
    requires forall i :: 0 <= i < |hs| ==> hs[i].IsReader()
    ensures Run(s, hs) == s
    decreases |hs|
  {
    if hs != [] {
      ReadersChangeNothing(Handle(s, hs[0]).0, hs[1..]);
    }
  }

  /** The calls after the last reset in `hs` (all of `hs` when it holds no reset). */
  function SinceLastReset(hs: seq<Handler>): (r: seq<Handler>)
    ensures ResetButtonCount !in r
    ensures |r| <= |hs| && r == hs[|hs| - |r|..]
    decreases |hs|
  {
    if hs == [] then []
    else if hs[|hs| - 1] == ResetButtonCount then []
    else SinceLastReset(hs[..|hs| - 1]) + [hs[|hs| - 1]]
  }

  /** The count after any sequence of calls: the number of increments since the last
      reset, or, without any reset, the starting count plus the number of increments. */
  lemma {:induction false} CountAfterRun(s: State, hs: seq<Handler>)
    ensures Run(s, hs).count ==
      if ResetButtonCount in hs then multiset(SinceLastReset(hs))[IncrementButtonCount]
      else s.count + multiset(hs)[IncrementButtonCount]
    decreases |hs|
  {
    if hs != [] {
      var init, last := hs[..|hs| - 1], hs[|hs| - 1];
      assert hs == init + [last];
      RunAppend(s, init, last);
      CountAfterRun(s, init);
      assert ResetButtonCount in hs <==> ResetButtonCount in init || last == ResetButtonCount;
      assert multiset(hs) == multiset(init) + multiset{last};
      if last != ResetButtonCount {
        assert multiset(SinceLastReset(hs)) == multiset(SinceLastReset(init)) + multiset{last};
      }
    }
  }

  /** n increments from count c give count c + n, and leave the LED alone. */
  lemma {:induction false} IncrementsAddUp(s: State, n: nat)
    ensures Run(s, seq(n, _ => IncrementButtonCount)) == s.(count := s.count + n)
  {
    if n > 0 {
      var hs := seq(n, _ => IncrementButtonCount);
      assert hs == seq(n - 1, _ => IncrementButtonCount) + [IncrementButtonCount];
      RunAppend(s, seq(n - 1, _ => IncrementButtonCount), IncrementButtonCount);
      IncrementsAddUp(s, n - 1);
    }
  }

  /** turn_led_on, turn_led_off and reset_button_count are idempotent: a second call
      gives the same state and the same reply as the first. */
  lemma SettersIdempotent(s: State, h: Handler)
    requires h.IsLedSetter() || h == ResetButtonCount
    ensures Handle(Handle(s, h).0, h) == Handle(s, h)
    ensures Run(s, [h, h]) == Run(s, [h])
  {
  }

  /** increment_button_count is not idempotent: each call advances the counter. */
  lemma IncrementNotIdempotent(s: State)
    ensures Run(s, [IncrementButtonCount, IncrementButtonCount]).count == s.count + 2
    ensures Run(s, [IncrementButtonCount, IncrementButtonCount]) != Run(s, [IncrementButtonCount])
  {
  }
}

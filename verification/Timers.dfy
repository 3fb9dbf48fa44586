/**
 * The millisecond timer of controller/lib/src/timer.cpp on Linux and OS X, where a time stamp is 32 bits
 * wide.  Time is an unbounded `now`; only its value modulo 2^32 is ever seen by the timer.
 */
module Timers {
  import opened Basics

  /** Milliseconds from a stored time stamp to `now`, in 32-bit unsigned arithmetic. */
  function ElapsedMs(startTime: uint32, now: nat): uint32 {
    (now % TWO_32 - startTime) % TWO_32
  }

  /** The four fields of a timer; a copy of a timer is a copy of this value. */
  datatype TimerValue = TimerValue(running: bool, elapsed: bool, count: uint32, startTime: uint32) {
    function Started(durationMs: uint32, now: nat): TimerValue {
      TimerValue(true, false, durationMs, now % TWO_32)
    }

    function Stopped(): TimerValue {
      this.(running := false, elapsed := false)
    }

    /** The timer after `timeout()` has been asked at time `now`; the answer is the new `elapsed`. */
    function Polled(now: nat): TimerValue {
      if running && !elapsed && ElapsedMs(startTime, now) > count then this.(elapsed := true) else this
    }
  }

  const IDLE := TimerValue(false, false, 0, 0)

  /** The timer after being polled at each of the given times in turn. */
  function PolledAt(t: TimerValue, polls: seq<nat>): TimerValue {
    if polls == [] then t else PolledAt(t, polls[..|polls| - 1]).Polled(polls[|polls| - 1])
  }

  /** The time stamp subtraction measures real distance, modulo the width of the clock. */
  lemma ElapsedMsIsDistance(start: nat, now: nat)
    requires start <= now
    ensures ElapsedMs(start % TWO_32, now) == (now - start) % TWO_32
  {
    var a, b := now / TWO_32, start / TWO_32;
    assert now - start == (a - b) * TWO_32 + (now % TWO_32 - start % TWO_32);
  }

  /** A timer reports its timeout exactly when some poll fell, modulo 2^32, past the duration. */
  lemma {:induction false} FiresExactlyWhen(t: TimerValue, durationMs: uint32, start: nat, polls: seq<nat>)
    requires forall i :: 0 <= i < |polls| ==> start <= polls[i]
    ensures PolledAt(t.Started(durationMs, start), polls).elapsed
       <==> exists i :: 0 <= i < |polls| && (polls[i] - start) % TWO_32 > durationMs
    ensures var p := PolledAt(t.Started(durationMs, start), polls);
            p.(elapsed := false) == t.Started(durationMs, start)
  {
    if polls != [] {
      var n := |polls| - 1;
      FiresExactlyWhen(t, durationMs, start, polls[..n]);
      ElapsedMsIsDistance(start, polls[n]);
      if exists i :: 0 <= i < |polls| && (polls[i] - start) % TWO_32 > durationMs {
        var i :| 0 <= i < |polls| && (polls[i] - start) % TWO_32 > durationMs;
        if i < n {
          assert polls[..n][i] == polls[i];
        }
      }
    }
  }

  /** A timer never fires early, however long the clock has run. */
  lemma NeverFiresEarly(t: TimerValue, durationMs: uint32, start: nat, polls: seq<nat>, end: nat)
    requires forall i :: 0 <= i < |polls| ==> start <= polls[i] <= end
    requires PolledAt(t.Started(durationMs, start), polls).elapsed
    ensures end - start > durationMs
  {
    FiresExactlyWhen(t, durationMs, start, polls);
  }

  /** One poll after the duration and before the clock comes round latches the timeout for good. */
  lemma FiresOncePolledInTime(t: TimerValue, durationMs: uint32, start: nat, polls: seq<nat>, k: nat)
    requires forall i :: 0 <= i < |polls| ==> start <= polls[i]
    requires k < |polls| && durationMs < polls[k] - start < TWO_32
    ensures PolledAt(t.Started(durationMs, start), polls).elapsed
  {
    FiresExactlyWhen(t, durationMs, start, polls);
    assert (polls[k] - start) % TWO_32 > durationMs;
  }

  /**
   * Outside that interval the timeout can be missed: a timer that is only asked a whole number of clock
   * periods after its start never fires.
   */
  lemma MissedWhenTheClockComesRound(t: TimerValue, durationMs: uint32, start: nat, periods: nat)
    ensures !PolledAt(t.Started(durationMs, start), [start + periods * TWO_32]).elapsed
  {
    var polls := [start + periods * TWO_32];
    FiresExactlyWhen(t, durationMs, start, polls);
    assert (periods * TWO_32) % TWO_32 == 0;
  }

  /** A timer that was stopped, or that was never started, does not fire until it is started. */
  lemma {:induction false} StoppedNeverFires(t: TimerValue, polls: seq<nat>)
    ensures PolledAt(t.Stopped(), polls) == t.(running := false, elapsed := false)
    ensures PolledAt(IDLE, polls) == TimerValue(false, false, 0, 0)
  {
    if polls != [] {
      StoppedNeverFires(t, polls[..|polls| - 1]);
    }
  }

  class Timer {
    var running: bool
    var elapsed: bool
    var count: uint32
    var startTime: uint32

    ghost function Value(): TimerValue
      reads this
    {
      TimerValue(running, elapsed, count, startTime)
    }

    constructor ()
      ensures Value() == IDLE
    {
      running, elapsed, count, startTime := false, false, 0, 0;
    }

    method Start(durationMs: uint32, now: nat)
      modifies this
      ensures Value() == old(Value()).Started(durationMs, now)
    {
      running := true;
      elapsed := false;
      count := durationMs;
      startTime := now % TWO_32;
    }

    method Stop()
      modifies this
      ensures Value() == old(Value()).Stopped()
    {
      running := false;
      elapsed := false;
    }

    method Timeout(now: nat) returns (fired: bool)
      modifies this
      ensures Value() == old(Value()).Polled(now)
      ensures fired == elapsed
    {
      if running && !elapsed {
        var elapsedMs := ElapsedMs(startTime, now);
        if elapsedMs > count {
          elapsed := true;
        }
      }
      fired := elapsed;
    }
  }
}

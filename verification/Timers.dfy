// Model of LibCpp/cTimer.cpp: a passive timer that is asked for the time that has passed.

/** The clock is an input: every operation takes the current time in timer units. */
module Timers {
  import opened Words

  /** startCount == 0 means stopped; duration == 0 means that no timeout is set. */
  datatype Timer = Timer(startTime: nat, duration: nat, startCount: nat) {

    /** Time since the last start, as the 64 bit difference the program forms. */
    function Get(now: nat): nat {
      (now - startTime) % WORD64
    }

    function Restart(now: nat): Timer {
      Timer(now, duration, if duration != 0 then startCount + 1 else startCount)
    }

    /** A duration of zero keeps the duration set before. */
    function Start(now: nat, d: nat): Timer {
      Timer(startTime, if d != 0 then d else duration, 0).Restart(now)
    }

    function Stop(): Timer {
      Timer(startTime, duration, 0)
    }

    /** The three-valued query: -1 inactive, 0 still running, positive after the timeout. */
    function Elapsed(now: nat): int {
      if duration == 0 || startCount == 0 then -1
      else if Get(now) > duration then startCount
      else 0
    }

    predicate Active() {
      duration != 0 && startCount != 0
    }
  }

  function Initial(duration: nat, now: nat): Timer {
    Timer(now, duration, 0)
  }

  /** cTimer as the object its users hold. */
  class TimerObject {
    var startTime: nat
    var duration: nat
    var startCount: nat

    ghost function Value(): Timer
      reads this
    {
      Timer(startTime, duration, startCount)
    }

    constructor (duration: nat, start: bool, now: nat)
      ensures Value() == if start then Initial(0, now).Start(now, duration) else Initial(duration, now)
    {
      this.startTime := now;
      this.duration := if start then 0 else duration;
      this.startCount := 0;
      new;
      if start {
        Start(duration, now);
      }
    }

    method Start(d: nat, now: nat)
      modifies this
      ensures Value() == old(Value()).Start(now, d)
    {
      startCount := 0;
      if d != 0 {
        duration := d;
      }
      Restart(now);
    }

    method Restart(now: nat)
      modifies this
      ensures Value() == old(Value()).Restart(now)
    {
      startTime := now;
      if duration != 0 {
        startCount := startCount + 1;
      }
    }

    method Stop(now: nat) returns (time: nat)
      modifies this
      ensures Value() == old(Value()).Stop() && time == Value().Get(now)
    {
      startCount := 0;
      time := (now - startTime) % WORD64;
    }

    /** cTimer::elapsed: a given duration overrides the stored one and ignores the stopped state. */
    method Elapsed(d: nat, now: nat) returns (count: int)
      ensures d == 0 ==> count == Value().Elapsed(now)
      ensures d != 0 ==> count == if Value().Get(now) > d then 1 else 0
    {
      var time := (now - startTime) % WORD64;
      if d != 0 {
        return if time > d then 1 else 0;
      }
      if duration == 0 || startCount == 0 {
        return -1;
      }
      return if time > duration then startCount else 0;
    }
  }

  /** The timeout of a started timer is reported exactly once the clock is past its end, and a
      stopped timer reports nothing until it is started again. */
  lemma TimeoutExactlyAfterDuration(t: Timer, d: nat, started: nat, now: nat)
    requires started <= now < started + WORD64
    requires d != 0 || t.duration != 0
    ensures var s := t.Start(started, d);
            var limit := if d != 0 then d else t.duration;
            && s.Elapsed(now) == (if now > started + limit then 1 else 0)
            && s.Stop().Elapsed(now) == -1
            && s.Stop().Get(now) == now - started
  {
  }
}

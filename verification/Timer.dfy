/** The counters of the timer interrupt (timer.c, k_process.c). */
module Timers {
  import opened Integers
  import opened KernelState

  class Timer {
    var count: nat          // g_timer_count, an unsigned
    ghost var ticks: int    // all ticks since start-up
    ghost var turns: int    // how often `count` has wrapped around

    ghost predicate Valid()
      reads this
    {
      ticks == count + turns * UINT_LIMIT && count < UINT_LIMIT
    }

    constructor ()
      ensures Valid() && ticks == 0
    {
      count, ticks, turns := 0, 0, 0;
    }

    method Tick()
      requires Valid()
      modifies this
      ensures Valid() && ticks == old(ticks) + 1
    {
      count, ticks := count + 1, ticks + 1;
      if count == UINT_LIMIT {
        count, turns := 0, turns + 1;
      }
    }

    /** The count taken as an int. */
    function Now(): (now: int)
      requires Valid()
      reads this
      ensures now == Wrapped(ticks)
    {
      WrappedShift(count, turns);
      WrappedIsSigned(count);
      ToSigned(count)
    }

    /** The sum of an int and the count, an unsigned, stored as an int. */
    function After(delay: int32): (expiry: int)
      requires Valid()
      reads this
      ensures expiry == Wrapped(ticks + delay)
    {
      WrappedShift(delay + count, turns);
      WrappedIsSigned(delay + count);
      ToSigned((delay + count) % UINT_LIMIT)
    }

  }

  /** The counter inside k_check_preemption_eager. */
  class MilliCounter {
    var millis: nat

    constructor ()
      ensures millis == 0
    {
      millis := 0;
    }

    /** Tells every hundredth time. */
    method Count() returns (due: bool)
      modifies this
      ensures millis == (old(millis) + 1) % 100 && due == (millis == 0)
    {
      millis := (millis + 1) % 100;
      due := millis == 0;
    }
  }

  /** How tick number `tick` since start-up should end in either build. */
  function CheckOf(timeslicing: bool, tick: int): TickCheck {
    if !timeslicing then Plain else if tick % 100 == 0 then Eager else Skipped
  }
}

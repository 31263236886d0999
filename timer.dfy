// Timer: one scheduled callback with its next expiration, an optional
// repeat interval and a unique creation sequence number.
module Timers {

  /** Microseconds since the epoch (Timestamp::microSecondsSinceEpoch). */
  type Timestamp = int

  const kMicroSecondsPerSecond: int := 1000000

  /** Timestamp::invalid(), the default-constructed timestamp. */
  const InvalidTime: Timestamp := 0

  /** Timestamp::valid(): strictly positive. */
  predicate IsValid(t: Timestamp)
  {
    t > 0
  }

  /** The process-wide Timer::s_numCreated_ counter. */
  class SequenceCounter {
    var numCreated: nat

    constructor ()
      ensures numCreated == 0
    {
      numCreated := 0;
    }
  }

  class Timer {
    /** Identifies the TimerCallback to run. */
    const callback: nat
    var expiration: Timestamp
    /** Repeat interval in microseconds; not positive for a one-shot timer. */
    const interval: int
    const repeat: bool := interval > 0
    const sequence: nat

    /** Timer(cb, when, interval): repeats iff interval > 0; takes the next sequence number. */
    constructor (cb: nat, when: Timestamp, interval: int, counter: SequenceCounter)
      modifies counter
      ensures callback == cb && expiration == when && this.interval == interval
      ensures repeat <==> interval > 0
      ensures counter.numCreated == old(counter.numCreated) + 1
      ensures sequence == counter.numCreated
    {
      callback := cb;
      expiration := when;
      this.interval := interval;
      counter.numCreated := counter.numCreated + 1;
      sequence := counter.numCreated;
    }

    /** restart(now): a repeating timer moves to now + interval, any other becomes invalid. */
    method Restart(now: Timestamp)
      modifies this`expiration
      ensures repeat ==> expiration == now + interval && expiration > now
      ensures !repeat ==> expiration == InvalidTime && !IsValid(expiration)
    {
      if repeat {
        expiration := now + interval;
      } else {
        expiration := InvalidTime;
      }
    }
  }
}

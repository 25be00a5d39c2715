/** The request throttler as an object used by one caller. */
module ThrottlerObject {
  import opened Admissions

  lemma EntryIsAdmissible(rpm: int, times: seq<real>, log: seq<real>, now: real, stamp: real)
    requires History(rpm, now, times, log) && times == Recent(log, now) && now <= stamp
    requires |times| < rpm || times != []
    requires rpm <= |times| ==> now + SleepTime(times, now) <= stamp
    ensures 1 <= rpm && Admissible(log, rpm, stamp)
  {
    if |times| < rpm {
      RoomIsAdmissible(log, rpm, now, stamp);
    } else {
      SleepingIsAdmissible(log, rpm, now, stamp);
    }
  }

  /**
   One caller's entry and exit, with the two clock readings as inputs. The ghost fields are
   the full history, the callers inside, and the permits lost to a raised entry.
   */
  class ConcurrencyThrottler {
    const maxConcurrency: nat
    const requestsPerMinute: int
    var permits: int
    var lastRequestTimes: seq<real>
    ghost var log: seq<real>
    ghost var inside: nat
    ghost var leaked: nat

    ghost predicate Valid(clock: real)
      reads this
    {
      && 0 <= permits && permits + inside + leaked == maxConcurrency
      && History(requestsPerMinute, clock, lastRequestTimes, log)
      && (1 <= requestsPerMinute ==> leaked == 0)
    }

    constructor (maxConcurrency: nat, requestsPerMinute: int)
      ensures this.maxConcurrency == maxConcurrency && this.requestsPerMinute == requestsPerMinute
      ensures permits == maxConcurrency && log == [] && inside == 0
      ensures forall clock :: Valid(clock)
    {
      this.maxConcurrency := maxConcurrency;
      this.requestsPerMinute := requestsPerMinute;
      permits := maxConcurrency;
      lastRequestTimes := [];
      log, inside, leaked := [], 0, 0;
    }

    /**
     Entry once a permit is free. `now` and `stamp` are the two clock readings; a sleep lasts
     at least as long as asked. The stamp is recorded and the window bound kept, or the call
     raises, which happens exactly when the limit is below one.
     */
    method Enter(now: real, stamp: real) returns (raised: bool)
      requires Valid(now) && 0 < permits && now <= stamp
      requires var recent := Recent(lastRequestTimes, now);
        recent != [] && requestsPerMinute <= |recent| ==> now + SleepTime(recent, now) <= stamp
      modifies this
      ensures Valid(stamp)
      ensures raised <==> requestsPerMinute <= 0
      ensures permits == old(permits) - 1
      ensures lastRequestTimes == Recent(old(lastRequestTimes), now) + if raised then [] else [stamp]
      ensures log == if raised then old(log) else old(log) + [stamp]
      ensures inside == if raised then old(inside) else old(inside) + 1
    {
      hide Recent, Admissible, Sorted, Tail, Spaced;
      permits := permits - 1;
      PruningKeepsHistory(requestsPerMinute, now, lastRequestTimes, log, now);
      lastRequestTimes := Recent(lastRequestTimes, now);
      if |lastRequestTimes| >= requestsPerMinute {
        if |lastRequestTimes| == 0 {
          LaterKeepsHistory(requestsPerMinute, now, lastRequestTimes, log, stamp);
          leaked := leaked + 1;
          return true;
        }
        // The thread sleeps here; `stamp` is the clock after it.
      }
      EntryIsAdmissible(requestsPerMinute, lastRequestTimes, log, now, stamp);
      LaterKeepsHistory(requestsPerMinute, now, lastRequestTimes, log, stamp);
      AdmissionKeepsHistory(requestsPerMinute, stamp, lastRequestTimes, log, stamp);
      lastRequestTimes := lastRequestTimes + [stamp];
      log := log + [stamp];
      inside := inside + 1;
      raised := false;
    }

    /** What a valid object promises about every window of its history. */
    lemma WindowBoundHolds(clock: real, a: real)
      requires Valid(clock) && 1 <= requestsPerMinute
      ensures CountIn(log, a) <= requestsPerMinute
    {
      SpacedBoundsWindow(log, requestsPerMinute, a);
    }

    /** Leaving returns the permit and touches nothing else. */
    method Exit(clock: real)
      requires Valid(clock) && 0 < inside
      modifies this`permits, this`inside
      ensures Valid(clock)
      ensures permits == old(permits) + 1 && inside == old(inside) - 1
    {
      permits := permits + 1;
      inside := inside - 1;
    }
  }
}

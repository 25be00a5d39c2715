/**
 What every run of the request throttler keeps: at most `rpm` admissions in any 60-second
 window, at most `maxConcurrency` callers inside, one editor of the list at a time, a pruned
 list that is exactly the part of the full history younger than 60 seconds, and no deadlock.
 */
module ThrottlerRuns {
  import opened Admissions
  import opened Pigeonhole
  import opened Throttler
  import opened Wrappers

  ghost predicate Reached(c: Config, threads: set<ThreadId>, clock: real, moves: seq<Move>, s: State) {
    Run(c, Start(c, threads, clock), moves) == Some(s)
  }

  lemma ReachedInv(c: Config, threads: set<ThreadId>, clock: real, moves: seq<Move>, s: State)
    requires Reached(c, threads, clock, moves, s)
    ensures Inv(c, s)
  {
    StartInv(c, threads, clock);
    RunKeepsInv(c, Start(c, threads, clock), moves);
  }

  /** No 60-second window of any run holds more than `rpm` admissions. */
  lemma WindowBound(c: Config, threads: set<ThreadId>, clock: real, moves: seq<Move>, s: State, a: real)
    requires 1 <= c.rpm && Reached(c, threads, clock, moves, s)
    ensures CountIn(s.log, a) <= c.rpm
  {
    ReachedInv(c, threads, clock, moves, s);
    SpacedBoundsWindow(s.log, c.rpm, a);
  }

  /** Permits are conserved, so no more than `maxConcurrency` requests are ever in flight. */
  lemma InFlightBound(c: Config, threads: set<ThreadId>, clock: real, moves: seq<Move>, s: State)
    requires Reached(c, threads, clock, moves, s)
    ensures s.permits + |Holders(s)| + s.leaked == c.maxConcurrency
    ensures |InFlight(s)| <= c.maxConcurrency
  {
    ReachedInv(c, threads, clock, moves, s);
    SubsetSize(InFlight(s), Holders(s));
  }

  /** Two threads are never in the critical section together. */
  lemma MutualExclusion(
      c: Config, threads: set<ThreadId>, clock: real, moves: seq<Move>, s: State, t: ThreadId, u: ThreadId)
    requires Reached(c, threads, clock, moves, s)
    requires t in s.threads && Critical(s.threads[t])
    requires u in s.threads && Critical(s.threads[u])
    ensures t == u
  {
    ReachedInv(c, threads, clock, moves, s);
  }

  /**
   When a thread has pruned the list, the list is exactly the recent part of the full history,
   it has at most `rpm` entries, and a thread that then sleeps does so for between 0.1 and
   60.1 seconds: the test for a positive sleep always succeeds.
   */
  lemma PrunedListIsTheWindow(
      c: Config, threads: set<ThreadId>, clock: real, moves: seq<Move>, s: State, t: ThreadId)
    requires 1 <= c.rpm && Reached(c, threads, clock, moves, s)
    requires t in s.threads && s.threads[t].Pruned?
    ensures var now := s.threads[t].now;
      && s.times == Recent(s.log, now)
      && |s.times| <= c.rpm
      && (|s.times| == c.rpm ==> SLACK < SleepTime(s.times, now) <= WINDOW + SLACK)
  {
    ReachedInv(c, threads, clock, moves, s);
    var now := s.threads[t].now;
    assert LocalAt(c, s, t);
    RecentAtMostRpm(s.log, c.rpm, now);
    if |s.times| == c.rpm {
      SleepingIsAdmissible(s.log, c.rpm, now, now);
    }
  }

  /**
   What a thread with a pruned list does next, in every reachable state: with fewer than `rpm`
   admissions in the last minute it goes on at once; else it sleeps until 60.1 seconds after the
   admission `rpm` places from the end of the full history, counted from its own clock reading.
   */
  lemma WaitIsExact(
      c: Config, threads: set<ThreadId>, clock: real, moves: seq<Move>, s: State, t: ThreadId)
    requires 1 <= c.rpm && Reached(c, threads, clock, moves, s)
    requires t in s.threads && s.threads[t].Pruned?
    ensures var now := s.threads[t].now; var next := Advance(c, s, t).threads[t];
      if |Recent(s.log, now)| < c.rpm then next == Awake
      else c.rpm <= |s.log| && next == Sleeping(s.log[|s.log| - c.rpm] + 60.1 + (s.clock - now))
  {
    ReachedInv(c, threads, clock, moves, s);
    var now := s.threads[t].now;
    assert LocalAt(c, s, t);
    if |Recent(s.log, now)| >= c.rpm {
      WakeUpIs(s.log, c.rpm, now);
      SleepingIsAdmissible(s.log, c.rpm, now, now);
    }
  }

  /** While a thread is in the critical section, no move of another changes the list or the history. */
  lemma ListIsOwned(
      c: Config, threads: set<ThreadId>, clock: real, moves: seq<Move>, s: State, t: ThreadId, m: Move)
    requires Reached(c, threads, clock, moves, s)
    requires t in s.threads && Critical(s.threads[t]) && CanMove(s, m) && m != Step(t)
    ensures var next := Do(c, s, m);
      next.times == s.times && next.log == s.log && t in next.threads && next.threads[t] == s.threads[t]
  {
    ReachedInv(c, threads, clock, moves, s);
    if m.Step? {
      assert !Critical(s.threads[m.thread]);
    }
  }

  /**
   A rate limit below one breaks the gate: nobody is ever admitted and every attempt loses a
   permit for good. From one on, no permit is ever lost.
   */
  lemma LimitBelowOneAdmitsNobody(c: Config, threads: set<ThreadId>, clock: real, moves: seq<Move>, s: State)
    requires Reached(c, threads, clock, moves, s)
    ensures c.rpm <= 0 ==> s.log == [] && InFlight(s) == {}
    ensures 1 <= c.rpm ==> s.leaked == 0
  {
    ReachedInv(c, threads, clock, moves, s);
    if c.rpm <= 0 {
      forall t | t in s.threads ensures s.threads[t] != Inside {
        assert LocalAt(c, s, t);
      }
    }
  }

  /** Five steps of a single caller lose a permit exactly when the limit is below one. */
  lemma FirstCallerRaisesIff(c: Config, t: ThreadId, clock: real)
    requires 1 <= c.maxConcurrency
    ensures var end := Run(c, Start(c, {t}, clock), seq(5, _ => Step(t)));
      end.Some? && (end.value.leaked == 1 <==> c.rpm <= 0)
  {
    var s0 := Start(c, {t}, clock);
    var s1 := Advance(c, s0, t);
    var s2 := Advance(c, s1, t);
    var s3 := Advance(c, s2, t);
    var s4 := Advance(c, s3, t);
    var s5 := Advance(c, s4, t);
    var m := Step(t);
    calc {
      Run(c, s0, seq(5, _ => m));
      { assert seq(5, _ => m)[1..] == seq(4, _ => m); }
      Run(c, s1, seq(4, _ => m));
      { assert seq(4, _ => m)[1..] == seq(3, _ => m); }
      Run(c, s2, seq(3, _ => m));
      { assert seq(3, _ => m)[1..] == seq(2, _ => m); }
      Run(c, s3, seq(2, _ => m));
      { assert seq(2, _ => m)[1..] == seq(1, _ => m); }
      Run(c, s4, seq(1, _ => m));
      { assert seq(1, _ => m)[1..] == []; }
      Run(c, s5, []);
    }
  }

  /** The gate never deadlocks: some thread can go on, at once or after waiting for a sleeper. */
  lemma SomeoneCanGoOn(c: Config, threads: set<ThreadId>, clock: real, moves: seq<Move>, s: State)
    requires 1 <= c.rpm && 1 <= c.maxConcurrency && s.threads != map[]
    requires Reached(c, threads, clock, moves, s)
    ensures exists t, to :: s.clock <= to && Enabled(s.(clock := to), t)
  {
    ReachedInv(c, threads, clock, moves, s);
    if s.lock.Some? {
      var t := s.lock.value;
      var to := if s.threads[t].Sleeping? && s.clock < s.threads[t].wake then s.threads[t].wake else s.clock;
      assert Enabled(s.(clock := to), t);
    } else if t :| t in Holders(s) {
      assert Enabled(s.(clock := s.clock), t);
    } else {
      var t :| t in s.threads;
      assert t !in Holders(s);
      assert Enabled(s.(clock := s.clock), t);
    }
  }
}

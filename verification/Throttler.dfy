/**
 The request throttler: a counting semaphore, a lock, and a list of admission times that
 is pruned and extended under the lock.

 Threads are interleaved step by step over one non-decreasing clock. `log` is the full
 history of admissions; the program itself keeps only `times`. The invariant relates the
 two, and holds after every move of every run.
 */
module Throttler {
  import opened Admissions
  import opened Wrappers

  // ---------- The interleaved machine ----------

  type ThreadId = nat

  /** Where a thread stands. Everything from `Entered` to `Appended` is under the lock. */
  datatype Pc =
    | Idle                    // outside
    | WaitLock                // holds a permit, wants the lock
    | Entered                 // has the lock, clock not read yet
    | GotNow(now: real)       // clock read, list not pruned yet
    | Pruned(now: real)       // list pruned, about to test its length
    | Sleeping(wake: real)    // asleep until at least `wake`
    | Awake                   // about to read the clock for its own entry
    | Stamped(t: real)        // clock read, entry not appended yet
    | Appended                // entry appended, lock still held
    | Inside                  // lock released, request in flight

  predicate Critical(pc: Pc) {
    pc != Idle && pc != WaitLock && pc != Inside
  }

  datatype Config = Config(maxConcurrency: nat, rpm: int)

  datatype State = State(
    clock: real,
    permits: int,
    lock: Option<ThreadId>,
    times: seq<real>,
    log: seq<real>,
    leaked: nat,              // permits never returned, because the entry raised
    threads: map<ThreadId, Pc>)

  datatype Move = Tick(to: real) | Step(thread: ThreadId)

  function Start(c: Config, threads: set<ThreadId>, clock: real): State {
    State(clock, c.maxConcurrency, None, [], [], 0, map t | t in threads :: Idle)
  }

  /** A thread blocks on the semaphore, on the lock, and while it sleeps. */
  predicate Enabled(s: State, t: ThreadId) {
    t in s.threads &&
    match s.threads[t]
    case Idle => s.permits > 0
    case WaitLock => s.lock.None?
    case Sleeping(wake) => s.clock >= wake
    case _ => true
  }

  function At(s: State, t: ThreadId, pc: Pc): State {
    s.(threads := s.threads[t := pc])
  }

  /** One atomic step of thread `t`. */
  function Advance(c: Config, s: State, t: ThreadId): (s': State)
    requires Enabled(s, t)
    ensures t in s'.threads && s'.threads == s.threads[t := s'.threads[t]]
    ensures s'.clock == s.clock
  {
    match s.threads[t]
    case Idle => At(s.(permits := s.permits - 1), t, WaitLock)
    case WaitLock => At(s.(lock := Some(t)), t, Entered)
    case Entered => At(s, t, GotNow(s.clock))
    case GotNow(now) => At(s.(times := Recent(s.times, now)), t, Pruned(now))
    case Pruned(now) =>
      if |s.times| < c.rpm then At(s, t, Awake)
      else if s.times == [] then
        // Indexing the empty list raises: the lock is released, the permit is not.
        At(s.(lock := None, leaked := s.leaked + 1), t, Idle)
      else if SleepTime(s.times, now) > 0.0 then
        At(s, t, Sleeping(s.clock + SleepTime(s.times, now)))
      else At(s, t, Awake)
    case Sleeping(_) => At(s, t, Awake)
    case Awake => At(s, t, Stamped(s.clock))
    case Stamped(stamp) => At(s.(times := s.times + [stamp], log := s.log + [stamp]), t, Appended)
    case Appended => At(s.(lock := None), t, Inside)
    case Inside => At(s.(permits := s.permits + 1), t, Idle)
  }

  predicate CanMove(s: State, m: Move) {
    match m
    case Tick(to) => s.clock <= to
    case Step(t) => Enabled(s, t)
  }

  function Do(c: Config, s: State, m: Move): State
    requires CanMove(s, m)
  {
    match m
    case Tick(to) => s.(clock := to)
    case Step(t) => Advance(c, s, t)
  }

  /** The state after a run, or nothing when some move of it is not possible. */
  function Run(c: Config, s: State, moves: seq<Move>): Option<State>
    decreases |moves|
  {
    if moves == [] then Some(s)
    else if !CanMove(s, moves[0]) then None
    else Run(c, Do(c, s, moves[0]), moves[1..])
  }

  // ---------- The invariant ----------

  function Holders(s: State): set<ThreadId> {
    set t | t in s.threads && s.threads[t] != Idle
  }

  function InFlight(s: State): set<ThreadId> {
    set t | t in s.threads && s.threads[t] == Inside
  }

  ghost predicate Conserved(c: Config, s: State) {
    0 <= s.permits && s.permits + |Holders(s)| + s.leaked == c.maxConcurrency
  }

  ghost predicate Exclusive(s: State) {
    && (s.lock.Some? ==> s.lock.value in s.threads && Critical(s.threads[s.lock.value]))
    && forall t :: t in s.threads && Critical(s.threads[t]) ==> s.lock == Some(t)
  }

  /** What a thread has established at its place in the critical section. */
  ghost predicate Local(rpm: int, clock: real, times: seq<real>, log: seq<real>, pc: Pc) {
    match pc
    case GotNow(now) =>
      && now <= clock
      && Tail(log, times, now)
      && forall i :: 0 <= i < |log| ==> log[i] <= now
    case Pruned(now) =>
      && now <= clock
      && times == Recent(log, now)
      && forall i :: 0 <= i < |log| ==> log[i] <= now
    case Sleeping(wake) => Admissible(log, rpm, wake)
    case Awake => Admissible(log, rpm, clock)
    case Stamped(t) => t <= clock && Admissible(log, rpm, t)
    case Appended => 1 <= rpm
    case Inside => 1 <= rpm
    case _ => true
  }

  ghost predicate LocalAt(c: Config, s: State, t: ThreadId)
    requires t in s.threads
  {
    Local(c.rpm, s.clock, s.times, s.log, s.threads[t])
  }

  ghost predicate Inv(c: Config, s: State) {
    && Conserved(c, s)
    && Exclusive(s)
    && History(c.rpm, s.clock, s.times, s.log)
    && (1 <= c.rpm ==> s.leaked == 0)
    && forall t :: t in s.threads ==> LocalAt(c, s, t)
  }

  lemma StartInv(c: Config, threads: set<ThreadId>, clock: real)
    ensures Inv(c, Start(c, threads, clock))
  {
    assert Holders(Start(c, threads, clock)) == {};
  }

  lemma LaterKeepsLocal(rpm: int, clock: real, times: seq<real>, log: seq<real>, pc: Pc, to: real)
    requires Local(rpm, clock, times, log, pc) && clock <= to
    ensures Local(rpm, to, times, log, pc)
  {
  }

  lemma TickKeepsInv(c: Config, s: State, to: real)
    requires Inv(c, s) && s.clock <= to
    ensures Inv(c, s.(clock := to))
  {
    var s' := s.(clock := to);
    assert Holders(s') == Holders(s);
    LaterKeepsHistory(c.rpm, s.clock, s.times, s.log, to);
    forall t | t in s'.threads ensures LocalAt(c, s', t) {
      assert LocalAt(c, s, t);
      LaterKeepsLocal(c.rpm, s.clock, s.times, s.log, s.threads[t], to);
    }
  }

  /** Entering the semaphore, and leaving by `Inside` or by raising, are the only changes of holder. */
  lemma HoldersAfter(s: State, s': State, t: ThreadId, pc: Pc)
    requires t in s.threads && s'.threads == s.threads[t := pc]
    ensures s.threads[t] == Idle && pc != Idle ==> |Holders(s')| == |Holders(s)| + 1
    ensures s.threads[t] != Idle && pc == Idle ==> |Holders(s')| == |Holders(s)| - 1
    ensures (s.threads[t] == Idle) == (pc == Idle) ==> |Holders(s')| == |Holders(s)|
  {
    var before, after := Holders(s), Holders(s');
    assert t in before <==> s.threads[t] != Idle;
    if pc == Idle {
      assert after == before - {t};
      hide Holders;
      assert t in before ==> |before - {t}| == |before| - 1;
      assert t !in before ==> before - {t} == before;
    } else {
      assert after == before + {t};
      hide Holders;
      assert t !in before ==> |before + {t}| == |before| + 1;
      assert t in before ==> before + {t} == before;
    }
  }

  /** Deciding at a pruned list: the thread may go on at once, or after the sleep it asks for. */
  lemma PrunedDecides(rpm: int, clock: real, times: seq<real>, log: seq<real>, now: real)
    requires 1 <= rpm && History(rpm, clock, times, log) && Local(rpm, clock, times, log, Pruned(now))
    ensures |times| < rpm ==> Admissible(log, rpm, clock)
    ensures rpm <= |times| ==>
      && SLACK < SleepTime(times, now) <= WINDOW + SLACK
      && Admissible(log, rpm, clock + SleepTime(times, now))
  {
    assert times == Recent(log, now) && now <= clock;
    hide Recent, Sorted, Spaced, Admissible, Tail, Local;
    if |times| < rpm {
      RoomIsAdmissible(log, rpm, now, clock);
    } else {
      SleepingIsAdmissible(log, rpm, now, clock + SleepTime(times, now));
    }
  }

  ghost predicate ListOk(c: Config, s: State) {
    History(c.rpm, s.clock, s.times, s.log) && (1 <= c.rpm ==> s.leaked == 0)
  }

  lemma PrunedStep(c: Config, s: State, t: ThreadId)
    requires Enabled(s, t) && LocalAt(c, s, t) && ListOk(c, s) && s.threads[t].Pruned?
    ensures ListOk(c, Advance(c, s, t)) && LocalAt(c, Advance(c, s, t), t)
  {
    var now := s.threads[t].now;
    assert Local(c.rpm, s.clock, s.times, s.log, Pruned(now));
    assert Recent([], now) == [];
    hide Recent, Admissible, SleepTime;
    if 1 <= c.rpm {
      PrunedDecides(c.rpm, s.clock, s.times, s.log, now);
      hide History;
    } else {
      assert s.log == [] && s.times == [] by {
        assert History(c.rpm, s.clock, s.times, s.log);
      }
      hide History;
    }
  }

  lemma StampedStep(c: Config, s: State, t: ThreadId)
    requires Enabled(s, t) && LocalAt(c, s, t) && ListOk(c, s) && s.threads[t].Stamped?
    ensures ListOk(c, Advance(c, s, t)) && LocalAt(c, Advance(c, s, t), t)
  {
    var stamp := s.threads[t].t;
    assert Local(c.rpm, s.clock, s.times, s.log, Stamped(stamp));
    assert Admissible(s.log, c.rpm, stamp) && 1 <= c.rpm;
    hide History, Admissible;
    AdmissionKeepsHistory(c.rpm, s.clock, s.times, s.log, stamp);
  }

  /** The part of the invariant about the list, and about the thread that steps. */
  lemma StepKeepsList(c: Config, s: State, t: ThreadId)
    requires Enabled(s, t) && LocalAt(c, s, t) && ListOk(c, s)
    ensures ListOk(c, Advance(c, s, t)) && LocalAt(c, Advance(c, s, t), t)
  {
    match s.threads[t]
    case GotNow(now) =>
      hide Recent, Sorted, Spaced;
      PruningKeepsHistory(c.rpm, s.clock, s.times, s.log, now);
    case Pruned(now) =>
      hide Local, Advance, History;
      PrunedStep(c, s, t);
    case Stamped(stamp) =>
      hide Local, Advance, History;
      StampedStep(c, s, t);
    case _ =>
      hide Recent, Sorted, Spaced;
  }

  /** A thread that changes the list holds the lock, so no other thread relies on the list. */
  lemma StepKeepsOtherLocal(c: Config, s: State, t: ThreadId, u: ThreadId)
    requires Enabled(s, t) && Exclusive(s) && u in s.threads && u != t && LocalAt(c, s, u)
    ensures LocalAt(c, Advance(c, s, t), u)
  {
    if Critical(s.threads[t]) {
      assert !Critical(s.threads[u]);
    }
  }

  lemma StepKeepsLock(c: Config, s: State, t: ThreadId)
    requires Exclusive(s) && Enabled(s, t)
    ensures Exclusive(Advance(c, s, t))
  {
  }

  lemma StepConserves(c: Config, s: State, t: ThreadId)
    requires Conserved(c, s) && Enabled(s, t)
    ensures Conserved(c, Advance(c, s, t))
  {
    var s' := Advance(c, s, t);
    HoldersAfter(s, s', t, s'.threads[t]);
  }

  lemma StepKeepsInv(c: Config, s: State, t: ThreadId)
    requires Inv(c, s) && Enabled(s, t)
    ensures Inv(c, Advance(c, s, t))
  {
    var s' := Advance(c, s, t);
    StepConserves(c, s, t);
    StepKeepsLock(c, s, t);
    assert LocalAt(c, s, t);
    StepKeepsList(c, s, t);
    forall u | u in s'.threads ensures LocalAt(c, s', u) {
      if u != t {
        assert LocalAt(c, s, u);
        StepKeepsOtherLocal(c, s, t, u);
      }
    }
  }

  lemma {:induction false} RunKeepsInv(c: Config, s: State, moves: seq<Move>)
    requires Inv(c, s) && Run(c, s, moves).Some?
    ensures Inv(c, Run(c, s, moves).value)
    decreases |moves|
  {
    if moves != [] {
      match moves[0] {
        case Tick(to) => TickKeepsInv(c, s, to);
        case Step(t) => StepKeepsInv(c, s, t);
      }
      RunKeepsInv(c, Do(c, s, moves[0]), moves[1..]);
    }
  }
}

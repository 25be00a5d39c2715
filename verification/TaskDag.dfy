/**
 The scheduler's view of a plan: the states of its tasks, and the pass that finds the tasks to
 run next while it blocks and skips others.

 The pass changes states as it goes, so what it does to later tasks can depend on the order;
 which tasks it finds ready does not.
 */
module TaskDag {
  import opened Pigeonhole
  import opened TaskGraph
  import opened Tasks

  datatype TaskState =
    | PENDING | READY | RUNNING | VERIFYING | COMPLETED | FAILED | BLOCKED | SKIPPED | SKIPPED_REDUNDANT | CANCELLED

  type States = map<TaskId, TaskState>

  predicate Waiting(s: TaskState) {
    s in {PENDING, READY, BLOCKED}
  }

  ghost predicate Covers(states: States, tasks: Graph) {
    forall t :: t in tasks <==> t in states
  }

  // ---------- One task of the pass ----------

  datatype Scan = Scan(missing: bool, satisfied: bool, failed: bool, skipped: bool)

  /** What the scan of the dependencies finds; it stops at the first failed or skipped one. */
  function Scanned(dependencies: seq<TaskId>, states: States): Scan {
    if dependencies == [] then Scan(false, true, false, false)
    else
      var d := dependencies[0];
      if d !in states then Scanned(dependencies[1..], states).(missing := true, satisfied := false)
      else if states[d] == FAILED then Scan(false, false, true, false)
      else if states[d] in {SKIPPED, SKIPPED_REDUNDANT} then Scan(false, false, false, true)
      else if states[d] != COMPLETED then Scanned(dependencies[1..], states).(satisfied := false)
      else Scanned(dependencies[1..], states)
  }

  /** The state a waiting task moves to. */
  function NextState(scan: Scan, now: TaskState): TaskState {
    if scan.missing then BLOCKED
    else if scan.satisfied then READY
    else if scan.failed then BLOCKED
    else if scan.skipped then SKIPPED_REDUNDANT
    else now
  }

  /** All dependencies are tasks, and completed. */
  ghost predicate Supplied(dependencies: seq<TaskId>, states: States) {
    forall d :: d in dependencies ==> d in states && states[d] == COMPLETED
  }

  lemma {:induction false} SatisfiedIff(dependencies: seq<TaskId>, states: States)
    ensures Scanned(dependencies, states).satisfied <==> Supplied(dependencies, states)
    ensures Scanned(dependencies, states).satisfied ==> !Scanned(dependencies, states).missing
  {
    if dependencies != [] {
      SatisfiedIff(dependencies[1..], states);
      assert forall d :: d in dependencies <==> d == dependencies[0] || d in dependencies[1..];
    }
  }

  method ScanDependencies(dependencies: seq<TaskId>, states: States) returns (scan: Scan)
    ensures scan == Scanned(dependencies, states)
  {
    var missing, satisfied := false, true;
    for k := 0 to |dependencies|
      invariant var rest := Scanned(dependencies[k..], states);
        Scanned(dependencies, states) ==
          Scan(missing || rest.missing, satisfied && rest.satisfied, rest.failed, rest.skipped)
    {
      assert dependencies[k..][0] == dependencies[k] && dependencies[k..][1..] == dependencies[k + 1..];
      var d := dependencies[k];
      if d !in states {
        missing, satisfied := true, false;
      } else if states[d] == FAILED {
        return Scan(missing, false, true, false);
      } else if states[d] in {SKIPPED, SKIPPED_REDUNDANT} {
        return Scan(missing, false, false, true);
      } else if states[d] != COMPLETED {
        satisfied := false;
      }
    }
    assert dependencies[|dependencies|..] == [];
    scan := Scan(missing, satisfied, false, false);
  }

  // ---------- The whole pass ----------

  datatype Pass = Pass(states: States, ready: seq<TaskId>)

  /** The states and the ready tasks after the pass over `order`. */
  function After(tasks: Graph, states: States, order: seq<TaskId>): (r: Pass)
    ensures r.states.Keys == states.Keys
  {
    if order == [] then Pass(states, [])
    else
      var before := After(tasks, states, order[..|order| - 1]);
      var t := order[|order| - 1];
      if t !in tasks || t !in before.states || !Waiting(before.states[t]) then before
      else
        var scan := Scanned(tasks[t], before.states);
        var now := NextState(scan, before.states[t]);
        Pass(before.states[t := now], if now == READY && scan.satisfied then before.ready + [t] else before.ready)
  }

  /** What the pass leaves as it was: the completed tasks, and the tasks it has not come to. */
  lemma {:induction false} PassKeeps(tasks: Graph, states: States, order: seq<TaskId>)
    ensures var after := After(tasks, states, order).states;
      && (forall t :: t in states && t !in order ==> after[t] == states[t])
      && (forall t :: t in states ==> (after[t] == COMPLETED <==> states[t] == COMPLETED))
      && (forall t :: t in states && !Waiting(states[t]) ==> after[t] == states[t])
  {
    hide Scanned;
    if order != [] {
      PassKeeps(tasks, states, order[..|order| - 1]);
      assert forall t :: t in order <==> t in order[..|order| - 1] || t == order[|order| - 1];
    }
  }

  /** The tasks that can run: waiting, with every dependency completed. */
  ghost predicate Runnable(tasks: Graph, states: States, t: TaskId) {
    t in tasks && t in states && Waiting(states[t]) && Supplied(tasks[t], states)
  }

  /** The pass finds exactly the tasks that could run when it began, whatever it changes on the way. */
  lemma {:induction false} ReadyIffRunnable(tasks: Graph, states: States, order: seq<TaskId>, t: TaskId)
    requires Distinct(order)
    ensures t in After(tasks, states, order).ready <==> t in order && Runnable(tasks, states, t)
  {
    if order != [] {
      var n := |order| - 1;
      ReadyIffRunnable(tasks, states, order[..n], t);
      assert t in order <==> t in order[..n] || t == order[n];
      if t == order[n] {
        assert t !in order[..n];
        PassKeeps(tasks, states, order[..n]);
        var before := After(tasks, states, order[..n]).states;
        hide Waiting;
        if t in tasks && t in states {
          SatisfiedIff(tasks[t], before);
          assert Supplied(tasks[t], before) <==> Supplied(tasks[t], states);
        }
      }
    }
  }

  /** Which tasks are ready does not depend on the order of the pass. */
  lemma ReadyIsOrderFree(tasks: Graph, states: States, a: seq<TaskId>, b: seq<TaskId>, t: TaskId)
    requires Lists(a, tasks) && Lists(b, tasks)
    ensures t in After(tasks, states, a).ready <==> t in After(tasks, states, b).ready
  {
    ReadyIffRunnable(tasks, states, a, t);
    ReadyIffRunnable(tasks, states, b, t);
  }

  lemma PassNext(tasks: Graph, states: States, order: seq<TaskId>, t: TaskId)
    ensures After(tasks, states, order + [t]) ==
      (var before := After(tasks, states, order);
       if t !in tasks || t !in before.states || !Waiting(before.states[t]) then before
       else
         var scan := Scanned(tasks[t], before.states);
         var now := NextState(scan, before.states[t]);
         Pass(before.states[t := now], if now == READY && scan.satisfied then before.ready + [t] else before.ready))
  {
    assert (order + [t])[..|order|] == order;
  }

  /** What becomes of the tasks behind a skipped one does depend on it: a chain is skipped in one pass or not. */
  lemma SkippingDependsOnOrder(a: TaskId, b: TaskId, c: TaskId)
    requires a != b && b != c && a != c
    ensures var tasks: Graph, states := map[a := [], b := [a], c := [b]], map[a := SKIPPED, b := PENDING, c := PENDING];
      && After(tasks, states, [a, b, c]).states[c] == SKIPPED_REDUNDANT
      && After(tasks, states, [a, c, b]).states[c] == PENDING
  {
    hide After;
    var tasks: Graph, states := map[a := [], b := [a], c := [b]], map[a := SKIPPED, b := PENDING, c := PENDING];
    TwoOrders(tasks, states, a, b, c);
  }

  lemma ScanOfOne(states: States, d: TaskId)
    requires d in states && states[d] in {SKIPPED, SKIPPED_REDUNDANT, PENDING}
    ensures Scanned([d], states) == Scan(false, false, false, states[d] != PENDING)
  {
  }

  lemma TwoOrders(tasks: Graph, states: States, a: TaskId, b: TaskId, c: TaskId)
    requires a in tasks && b in tasks && c in tasks && tasks[b] == [a] && tasks[c] == [b]
    requires a in states && b in states && c in states && b != c && a != b && a != c
    requires states[a] == SKIPPED && states[b] == PENDING && states[c] == PENDING
    ensures After(tasks, states, [a, b, c]).states[c] == SKIPPED_REDUNDANT
    ensures After(tasks, states, [a, c, b]).states[c] == PENDING
  {
    hide After, Scanned;
    EmptyPass(tasks, states);
    PassNext(tasks, states, [], a);
    assert [] + [a] == [a] && [a] + [b] == [a, b] && [a] + [c] == [a, c];
    assert [a, b] + [c] == [a, b, c] && [a, c] + [b] == [a, c, b];
    var skipped := states[b := SKIPPED_REDUNDANT];
    ScanOfOne(states, a);
    ScanOfOne(states, b);
    ScanOfOne(skipped, b);
    PassNext(tasks, states, [a], b);
    PassNext(tasks, states, [a], c);
    assert After(tasks, states, [a, b]).states == skipped;
    assert After(tasks, states, [a, c]).states == states;
    PassNext(tasks, states, [a, b], c);
    PassNext(tasks, states, [a, c], b);
  }

  lemma EmptyPass(tasks: Graph, states: States)
    ensures After(tasks, states, []) == Pass(states, [])
  {
  }

  // ---------- When nothing can run ----------

  /** The end of a chain that holds a task up: a missing task, or one neither waiting nor completed. */
  ghost predicate Obstacle(tasks: Graph, states: States, t: TaskId) {
    t !in tasks || (t in states && !Waiting(states[t]) && states[t] != COMPLETED)
  }

  /** `p` leads over waiting tasks, each needing the next. */
  ghost predicate WaitingChain(tasks: Graph, states: States, p: seq<TaskId>) {
    forall i :: 0 <= i < |p| - 1 ==> p[i] in states && Waiting(states[p[i]]) && Needs(tasks, p[i], p[i + 1])
  }

  ghost predicate Held(tasks: Graph, states: States, t: TaskId) {
    exists p :: |p| > 1 && p[0] == t && WaitingChain(tasks, states, p) && Obstacle(tasks, states, p[|p| - 1])
  }

  /** While nothing can run, a waiting task is held up, or a chain of waiting tasks goes on from it. */
  lemma {:induction false} FollowWaiting(tasks: Graph, states: States, t: TaskId, n: nat)
    returns (held: bool, p: seq<TaskId>)
    requires Covers(states, tasks) && forall u :: !Runnable(tasks, states, u)
    requires t in tasks && Waiting(states[t])
    ensures p != [] && p[0] == t && WaitingChain(tasks, states, p)
    ensures if held then |p| > 1 && Obstacle(tasks, states, p[|p| - 1])
      else |p| == n + 1 && forall i :: 0 <= i < |p| ==> p[i] in tasks
    decreases n
  {
    if n == 0 {
      return false, [t];
    }
    assert !Runnable(tasks, states, t);
    var d :| d in tasks[t] && !(d in states && states[d] == COMPLETED);
    assert Needs(tasks, t, d);
    if d !in tasks || !Waiting(states[d]) {
      return true, [t, d];
    }
    var rest;
    held, rest := FollowWaiting(tasks, states, d, n - 1);
    p := [t] + rest;
    hide Obstacle, Runnable;
    forall i | 0 <= i < |p| - 1
      ensures p[i] in states && Waiting(states[p[i]]) && Needs(tasks, p[i], p[i + 1])
    {
      assert i > 0 ==> p[i] == rest[i - 1] && p[i + 1] == rest[i];
    }
  }

  lemma RepeatingChainIsCycle(tasks: Graph, states: States, p: seq<TaskId>, i: nat, j: nat)
    requires WaitingChain(tasks, states, p) && i < j < |p| && p[i] == p[j]
    requires forall k :: 0 <= k < |p| ==> p[k] in tasks
    ensures Cyclic(tasks)
  {
    var q := p[i..j + 1];
    forall k | 0 <= k < |q| - 1 ensures Edge(tasks, q[k], q[k + 1]) {
      assert Needs(tasks, p[i + k], p[i + k + 1]);
    }
    assert Cycle(tasks, q);
  }

  lemma NothingRunsHolds(tasks: Graph, states: States, order: seq<TaskId>, t: TaskId)
    requires Lists(order, tasks) && Covers(states, tasks) && !Cyclic(tasks)
    requires forall u :: !Runnable(tasks, states, u)
    requires t in tasks && Waiting(states[t])
    ensures Held(tasks, states, t)
  {
    var held, p := FollowWaiting(tasks, states, t, |order|);
    if !held {
      forall x | x in p ensures x in order {
      }
      var i, j := Repeats(p, order);
      RepeatingChainIsCycle(tasks, states, p, i, j);
    }
  }

  lemma HeldCannotRun(tasks: Graph, states: States, t: TaskId)
    requires Covers(states, tasks) && Held(tasks, states, t)
    ensures !Runnable(tasks, states, t)
  {
    var p :| |p| > 1 && p[0] == t && WaitingChain(tasks, states, p) && Obstacle(tasks, states, p[|p| - 1]);
    assert Needs(tasks, p[0], p[0 + 1]);
    assert |p| > 2 ==> p[1] in states && Waiting(states[p[1]]);
  }

  /**
   A plan that passed the cycle check stalls exactly when every waiting task is held up: a
   chain of waiting tasks leads from it to a missing task, or to one that is neither waiting
   nor completed.
   */
  lemma StallsIffAllHeld(tasks: Graph, states: States, order: seq<TaskId>)
    requires Lists(order, tasks) && Covers(states, tasks) && !Cyclic(tasks)
    ensures After(tasks, states, order).ready == [] <==>
      forall t :: t in tasks && Waiting(states[t]) ==> Held(tasks, states, t)
  {
    var ready := After(tasks, states, order).ready;
    forall t ensures t in ready <==> Runnable(tasks, states, t) {
      ReadyIffRunnable(tasks, states, order, t);
    }
    hide After;
    if ready == [] {
      forall t | t in tasks && Waiting(states[t]) ensures Held(tasks, states, t) {
        NothingRunsHolds(tasks, states, order, t);
      }
    } else {
      var t := ready[0];
      assert t in ready;
      if Held(tasks, states, t) {
        HeldCannotRun(tasks, states, t);
      }
    }
  }

  // ---------- Plans that passed the cycle check ----------

  /** Every dependency is a task. */
  ghost predicate ClosedPlan(tasks: Graph) {
    forall a, b :: Needs(tasks, a, b) ==> b in tasks
  }

  /** No task is running, has failed, or was skipped or cancelled. */
  ghost predicate OnlyWaitingOrDone(states: States) {
    forall t :: t in states ==> Waiting(states[t]) || states[t] == COMPLETED
  }

  /**
   A plan without cycles and without missing dependencies never stalls: while some task waits
   and the others are completed, the pass finds a task to run.
   */
  lemma CheckedPlanNeverStalls(tasks: Graph, states: States, order: seq<TaskId>, t: TaskId)
    requires Lists(order, tasks) && Covers(states, tasks) && ClosedPlan(tasks) && OnlyWaitingOrDone(states)
    requires !Cyclic(tasks) && t in tasks && Waiting(states[t])
    ensures After(tasks, states, order).ready != []
  {
    StallsIffAllHeld(tasks, states, order);
    forall p | |p| > 1 && WaitingChain(tasks, states, p) ensures !Obstacle(tasks, states, p[|p| - 1]) {
      assert Needs(tasks, p[|p| - 2], p[|p| - 2 + 1]);
    }
  }

  predicate AllCompleted(states: States) {
    forall t :: t in states ==> states[t] in {COMPLETED, SKIPPED, SKIPPED_REDUNDANT}
  }

  /** A task that waits, is at work, or has failed or been called off. */
  predicate Unfinished(s: TaskState) {
    match s
    case PENDING | READY | BLOCKED => true
    case RUNNING | VERIFYING => true
    case FAILED | CANCELLED => true
    case COMPLETED | SKIPPED | SKIPPED_REDUNDANT => false
  }

  /** A plan is finished exactly when no task is left in any of the seven other states. */
  lemma UnfinishedIff(states: States)
    ensures !AllCompleted(states) <==> exists t :: t in states && Unfinished(states[t])
  {
    forall t | t in states
      ensures states[t] in {COMPLETED, SKIPPED, SKIPPED_REDUNDANT} <==> !Unfinished(states[t])
    {
      match states[t] {
        case PENDING =>
        case READY =>
        case BLOCKED =>
        case RUNNING =>
        case VERIFYING =>
        case FAILED =>
        case CANCELLED =>
        case COMPLETED =>
        case SKIPPED =>
        case SKIPPED_REDUNDANT =>
      }
    }
  }

  // ---------- The object ----------

  class TaskDAG {
    const tasks: Graph
    const order: seq<TaskId>
    var states: States

    ghost predicate Valid()
      reads this
    {
      Lists(order, tasks) && Covers(states, tasks)
    }

    constructor (tasks: Graph, order: seq<TaskId>)
      requires Lists(order, tasks)
      ensures Valid() && this.tasks == tasks && this.order == order
      ensures states == map t | t in tasks :: PENDING
    {
      this.tasks, this.order := tasks, order;
      states := map t | t in tasks :: PENDING;
    }

    lemma AllListed()
      requires Lists(order, tasks)
      ensures forall i :: 0 <= i < |order| ==> order[i] in tasks
    {
      assert forall i :: 0 <= i < |order| ==> order[i] in order;
    }

    /** Finds the tasks to run next; the states of the others are brought up to date on the way. */
    method GetReadyTasks() returns (ready: seq<TaskId>)
      requires Valid()
      modifies this`states
      ensures Valid()
      ensures Pass(states, ready) == After(tasks, old(states), order)
    {
      hide After, Scanned, NextState, Lists;
      ghost var before := states;
      EmptyPass(tasks, before);
      AllListed();
      ready := [];
      for i := 0 to |order|
        invariant Pass(states, ready) == After(tasks, before, order[..i])
        invariant Covers(states, tasks)
      {
        PassNext(tasks, before, order[..i], order[i]);
        assert order[..i + 1] == order[..i] + [order[i]];
        ready := ScheduleTask(order[i], ready);
      }
      assert order[..|order|] == order;
    }

    /** One task of the pass. */
    method ScheduleTask(t: TaskId, ready: seq<TaskId>) returns (ready': seq<TaskId>)
      requires t in tasks && Covers(states, tasks)
      modifies this`states
      ensures Covers(states, tasks)
      ensures Pass(states, ready') ==
        if !Waiting(old(states)[t]) then Pass(old(states), ready)
        else
          var scan := Scanned(tasks[t], old(states));
          var now := NextState(scan, old(states)[t]);
          Pass(old(states)[t := now], if now == READY && scan.satisfied then ready + [t] else ready)
    {
      ready' := ready;
      if Waiting(states[t]) {
        var scan := ScanDependencies(tasks[t], states);
        if scan.missing {
          states := states[t := BLOCKED];
        } else if scan.satisfied {
          states := states[t := READY];
          ready' := ready' + [t];
        } else if scan.failed {
          states := states[t := BLOCKED];
        } else if scan.skipped {
          states := states[t := SKIPPED_REDUNDANT];
        } else {
          assert states == states[t := states[t]];
        }
      }
    }

    method MarkTask(t: TaskId, s: TaskState)
      requires Valid()
      modifies this`states
      ensures Valid() && states == if t in tasks then old(states)[t := s] else old(states)
    {
      if t in tasks {
        states := states[t := s];
      }
    }

    method IsAllCompleted() returns (completed: bool)
      requires Valid()
      ensures completed <==> AllCompleted(states)
    {
      for i := 0 to |order|
        invariant forall j :: 0 <= j < i ==>
          order[j] in states && states[order[j]] in {COMPLETED, SKIPPED, SKIPPED_REDUNDANT}
      {
        assert order[i] in order;
        if states[order[i]] !in {COMPLETED, SKIPPED, SKIPPED_REDUNDANT} {
          return false;
        }
      }
      completed := true;
    }
  }
}

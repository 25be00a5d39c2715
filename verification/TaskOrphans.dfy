/**
 The tasks that can never run because of a failed, missing, skipped or cancelled one: which of them
 the scheduler's passes leave pending, and that no later run completes any of them, while all others
 can be completed.
 */
module TaskOrphans {
  import opened Pigeonhole
  import opened TaskDag
  import opened TaskGraph
  import opened TaskPasses
  import opened TaskSettling
  import opened Tasks

  /** A dependency that nothing brings to completion any more. */
  predicate Dead(states: States, t: TaskId) {
    t !in states || Skipped(states[t]) || states[t] in {FAILED, CANCELLED}
  }

  ghost predicate DoomChain(tasks: Graph, states: States, p: seq<TaskId>) {
    |p| > 1 && WaitingChain(tasks, states, p) && Dead(states, p[|p| - 1])
  }

  /** A chain of waiting tasks, each needing the next, leads from `t` to a dead one. */
  ghost predicate Doomed(tasks: Graph, states: States, t: TaskId) {
    exists p :: DoomChain(tasks, states, p) && p[0] == t
  }

  lemma DoomGrows(tasks: Graph, states: States, a: TaskId, b: TaskId)
    requires a in states && Waiting(states[a]) && Needs(tasks, a, b)
    requires Dead(states, b) || Doomed(tasks, states, b)
    ensures Doomed(tasks, states, a)
  {
    if Dead(states, b) {
      assert DoomChain(tasks, states, [a, b]);
    } else {
      var p :| DoomChain(tasks, states, p) && p[0] == b;
      var q := [a] + p;
      forall i | 0 <= i < |q| - 1 ensures q[i] in states && Waiting(states[q[i]]) && Needs(tasks, q[i], q[i + 1]) {
        assert i > 0 ==> q[i] == p[i - 1] && q[i + 1] == p[i];
      }
      assert DoomChain(tasks, states, q);
    }
  }

  lemma DoomTail(tasks: Graph, states: States, p: seq<TaskId>)
    requires DoomChain(tasks, states, p)
    ensures p[0] in states && Waiting(states[p[0]]) && Needs(tasks, p[0], p[1])
    ensures if |p| == 2 then Dead(states, p[1]) else DoomChain(tasks, states, p[1..]) && Waiting(states[p[1]])
  {
    assert Needs(tasks, p[0], p[0 + 1]);
    if |p| > 2 {
      var q := p[1..];
      forall i | 0 <= i < |q| - 1 ensures q[i] in states && Waiting(states[q[i]]) && Needs(tasks, q[i], q[i + 1]) {
        assert Needs(tasks, p[i + 1], p[i + 1 + 1]);
      }
      assert Waiting(states[q[0]]);
    }
  }

  /** What is going to be skipped is doomed. */
  lemma WillSkipIsDoomed(tasks: Graph, states: States, t: TaskId)
    requires WillSkip(tasks, states, t)
    ensures Doomed(tasks, states, t)
  {
    var p :| SkipChain(tasks, states, p) && p[0] == t;
    forall i | 0 <= i < |p| - 1 ensures p[i] in states && Waiting(states[p[i]]) && Needs(tasks, p[i], p[i + 1]) {
      assert SkipLink(tasks, states, p[i], p[i + 1]);
    }
    assert DoomChain(tasks, states, p);
  }

  // ---------- Passes do not change who is doomed ----------

  lemma {:induction false} DoomWasThere(tasks: Graph, states: States, now: States, p: seq<TaskId>)
    requires Reached(tasks, states, now) && DoomChain(tasks, now, p)
    ensures Doomed(tasks, states, p[0])
    decreases |p|
  {
    DoomTail(tasks, now, p);
    var t, d := p[0], p[1];
    assert CameFrom(tasks, states, t, now[t]);
    if |p| > 2 {
      DoomWasThere(tasks, states, now, p[1..]);
    } else if !Dead(states, d) {
      assert CameFrom(tasks, states, d, now[d]);
      WillSkipIsDoomed(tasks, states, d);
    }
    hide Doomed, Dead;
    DoomGrows(tasks, states, t, d);
  }

  lemma {:induction false} DoomRemains(tasks: Graph, states: States, now: States, p: seq<TaskId>)
    requires Reached(tasks, states, now) && DoomChain(tasks, states, p)
    ensures p[0] in now && (Doomed(tasks, now, p[0]) || now[p[0]] == SKIPPED_REDUNDANT)
    decreases |p|
  {
    DoomTail(tasks, states, p);
    var t, d := p[0], p[1];
    assert CameFrom(tasks, states, t, now[t]);
    assert d in states ==> CameFrom(tasks, states, d, now[d]);
    if |p| > 2 {
      DoomRemains(tasks, states, now, p[1..]);
    }
    if Waiting(now[t]) {
      DoomGrows(tasks, now, t, d);
    }
  }

  /** A task still waiting is doomed exactly when it was before the passes. */
  lemma PassesKeepDoom(tasks: Graph, states: States, now: States, t: TaskId)
    requires Reached(tasks, states, now) && t in now && Waiting(now[t])
    ensures Doomed(tasks, now, t) <==> Doomed(tasks, states, t)
  {
    if Doomed(tasks, now, t) {
      var p :| DoomChain(tasks, now, p) && p[0] == t;
      DoomWasThere(tasks, states, now, p);
    }
    if Doomed(tasks, states, t) {
      var p :| DoomChain(tasks, states, p) && p[0] == t;
      DoomRemains(tasks, states, now, p);
    }
  }

  // ---------- Orphans ----------

  /** Pending, although it can never run. */
  ghost predicate Orphan(tasks: Graph, states: States, t: TaskId) {
    t in tasks && t in states && states[t] == PENDING && Doomed(tasks, states, t)
  }

  /** Pending and doomed, but no dependency of its own is missing or failed, and nothing will skip it. */
  ghost predicate Overlooked(tasks: Graph, states: States, t: TaskId) {
    Orphan(tasks, states, t) && !Failing(tasks[t], states) && !WillSkip(tasks, states, t)
  }

  lemma DoomedIsNotSupplied(tasks: Graph, states: States, t: TaskId)
    requires Doomed(tasks, states, t)
    ensures t in tasks && !Supplied(tasks[t], states)
  {
    var p :| DoomChain(tasks, states, p) && p[0] == t;
    DoomTail(tasks, states, p);
  }

  /** Once passes change nothing more, the orphans are exactly the tasks that were overlooked at first. */
  lemma OrphanIffOverlooked(tasks: Graph, states: States, orders: seq<seq<TaskId>>, t: TaskId)
    requires Settled(tasks, Passes(tasks, states, orders))
    ensures Orphan(tasks, Passes(tasks, states, orders), t) <==> Overlooked(tasks, states, t)
  {
    var end := Passes(tasks, states, orders);
    PassesReached(tasks, states, orders);
    if t in tasks && t in states {
      hide Doomed, Settled, WillSkip, Failing, Supplied;
      SettledIsOutcome(tasks, states, orders, t);
      if Waiting(end[t]) {
        PassesKeepDoom(tasks, states, end, t);
      }
      if Doomed(tasks, states, t) {
        DoomedIsNotSupplied(tasks, states, t);
      }
    }
  }

  /** Pending and doomed, but no dependency of its own is missing or failed, and this pass will not skip it. */
  ghost predicate PassedOver(tasks: Graph, states: States, order: seq<TaskId>, t: TaskId) {
    Orphan(tasks, states, t) && !Failing(tasks[t], states) && !SkipsInTurn(tasks, states, order, t)
  }

  /** Which tasks are pending after one pass, in any order. */
  lemma PendingAfterPassIff(tasks: Graph, states: States, order: seq<TaskId>, t: TaskId)
    requires Lists(order, tasks) && t in tasks && t in states
    ensures After(tasks, states, order).states[t] == PENDING
      <==> && states[t] == PENDING && !SkipsInTurn(tasks, states, order, t)
           && !Failing(tasks[t], states) && !Supplied(tasks[t], states)
    ensures (forall u :: u in states ==> !Skipped(states[u])) ==> !SkipsInTurn(tasks, states, order, t)
  {
    PassIsOutcome(tasks, states, order, t);
    hide After, Failing, Supplied;
  }

  /** The orphans after one pass, in any order, are exactly the tasks that were passed over. */
  lemma OrphanIffPassedOver(tasks: Graph, states: States, order: seq<TaskId>, t: TaskId)
    requires Lists(order, tasks)
    ensures Orphan(tasks, After(tasks, states, order).states, t) <==> PassedOver(tasks, states, order, t)
  {
    var end := After(tasks, states, order).states;
    if t in tasks && t in states {
      hide Doomed, SkipsInTurn, Failing, Supplied;
      PendingAfterPassIff(tasks, states, order, t);
      NothingSkippedByNoStep(tasks, states);
      PassReached(tasks, states, states, order);
      if Waiting(end[t]) {
        PassesKeepDoom(tasks, states, end, t);
      }
      if Doomed(tasks, states, t) {
        DoomedIsNotSupplied(tasks, states, t);
      }
    }
  }

  /** The documented rule, that no pending task is orphaned, holds after a pass exactly when none is passed over. */
  lemma PassLeavesNoOrphansIff(tasks: Graph, states: States, order: seq<TaskId>)
    requires Lists(order, tasks)
    ensures (forall t :: !Orphan(tasks, After(tasks, states, order).states, t))
      <==> (forall t :: !PassedOver(tasks, states, order, t))
  {
    hide Orphan, PassedOver, After;
    var end := After(tasks, states, order).states;
    if t :| PassedOver(tasks, states, order, t) {
      OrphanIffPassedOver(tasks, states, order, t);
      assert Orphan(tasks, end, t);
    }
    if t :| Orphan(tasks, end, t) {
      OrphanIffPassedOver(tasks, states, order, t);
      assert PassedOver(tasks, states, order, t);
    }
  }

  /** A step that changes nothing, after steps that changed nothing. */
  lemma PassLeaves(tasks: Graph, states: States, order: seq<TaskId>, t: TaskId)
    requires After(tasks, states, order) == Pass(states, []) && t in tasks && t in states
    requires !Waiting(states[t]) ||
      var scan := Scanned(tasks[t], states); !scan.satisfied && NextState(scan, states[t]) == states[t]
    ensures After(tasks, states, order + [t]) == Pass(states, [])
  {
    hide After, Scanned, NextState;
    PassNext(tasks, states, order, t);
    assert states[t := states[t]] == states;
  }

  /** It happens: behind a failed and a blocked task the next stays pending, while other tasks run. */
  lemma FailureLeavesTasksPending(a: TaskId, b: TaskId, c: TaskId, d: TaskId)
    requires Distinct([a, b, c, d])
    ensures var tasks: Graph := map[a := [], b := [a], c := [b], d := []];
      var after := After(tasks, map[a := FAILED, b := BLOCKED, c := PENDING, d := PENDING], [a, b, c, d]);
      after.ready == [d] && Orphan(tasks, after.states, c) && !AllCompleted(after.states)
  {
    assert [a, b, c, d][0] != [a, b, c, d][1] && [a, b, c, d][0] != [a, b, c, d][2];
    assert [a, b, c, d][0] != [a, b, c, d][3] && [a, b, c, d][1] != [a, b, c, d][2];
    assert [a, b, c, d][1] != [a, b, c, d][3] && [a, b, c, d][2] != [a, b, c, d][3];
    var tasks: Graph := map[a := [], b := [a], c := [b], d := []];
    var states: States := map[a := FAILED, b := BLOCKED, c := PENDING, d := PENDING];
    assert DoomChain(tasks, states[d := READY], [c, b, a]);
    hide After;
    PassOverFailure(tasks, states, a, b, c, d);
    assert states[d := READY][c] == PENDING;
  }

  lemma ScansOfThree(states: States, a: TaskId, b: TaskId)
    requires a in states && b in states && states[a] == FAILED && states[b] == BLOCKED
    ensures Scanned([a], states) == Scan(false, false, true, false)
    ensures Scanned([b], states) == Scan(false, false, false, false)
    ensures Scanned([], states) == Scan(false, true, false, false)
  {
  }

  lemma PassOverFailure(tasks: Graph, states: States, a: TaskId, b: TaskId, c: TaskId, d: TaskId)
    requires a in tasks && b in tasks && c in tasks && d in tasks
    requires tasks[a] == [] && tasks[b] == [a] && tasks[c] == [b] && tasks[d] == [] && c != d
    requires a in states && b in states && c in states && d in states
    requires states[a] == FAILED && states[b] == BLOCKED && states[c] == PENDING && states[d] == PENDING
    ensures After(tasks, states, [a, b, c, d]) == Pass(states[d := READY], [d])
  {
    hide After, Scanned;
    assert [] + [a] == [a] && [a] + [b] == [a, b] && [a, b] + [c] == [a, b, c] && [a, b, c] + [d] == [a, b, c, d];
    ScansOfThree(states, a, b);
    EmptyPass(tasks, states);
    PassLeaves(tasks, states, [], a);
    PassLeaves(tasks, states, [a], b);
    PassLeaves(tasks, states, [a, b], c);
    PassNext(tasks, states, [a, b, c], d);
  }

  // ---------- Runs of the scheduler ----------

  predicate Started(s: TaskState) {
    s in {RUNNING, VERIFYING}
  }

  /** A pass, or a task marked by the scheduler. */
  datatype Move = GetReady(order: seq<TaskId>) | Mark(task: TaskId, state: TaskState)

  function Made(tasks: Graph, states: States, m: Move): States {
    match m
    case GetReady(order) => After(tasks, states, order).states
    case Mark(t, s) => if t in states then states[t := s] else states
  }

  /** The scheduler starts tasks that can run; what has been started may end in any state. */
  ghost predicate Allowed(tasks: Graph, states: States, m: Move) {
    match m
    case GetReady(_) => true
    case Mark(t, s) => (s == RUNNING && Runnable(tasks, states, t)) || (t in states && Started(states[t]))
  }

  /** Every move is a call on the plan's object: the pass over its dictionary, or a mark. */
  method MakeMove(dag: TaskDAG, m: Move)
    requires dag.Valid() && (m.GetReady? ==> m.order == dag.order)
    modifies dag`states
    ensures dag.Valid() && dag.states == Made(dag.tasks, old(dag.states), m)
  {
    match m
    case GetReady(_) =>
      var ready := dag.GetReadyTasks();
    case Mark(t, s) =>
      dag.MarkTask(t, s);
  }

  function AfterMoves(tasks: Graph, states: States, moves: seq<Move>): States {
    if moves == [] then states
    else Made(tasks, AfterMoves(tasks, states, moves[..|moves| - 1]), moves[|moves| - 1])
  }

  ghost predicate AllAllowed(tasks: Graph, states: States, moves: seq<Move>) {
    moves == [] ||
    var n := |moves| - 1;
    AllAllowed(tasks, states, moves[..n]) && Allowed(tasks, AfterMoves(tasks, states, moves[..n]), moves[n])
  }

  ghost predicate Lost(tasks: Graph, states: States, t: TaskId) {
    t in states && (Doomed(tasks, states, t) || states[t] == SKIPPED_REDUNDANT)
  }

  lemma MarkKeepsLost(tasks: Graph, states: States, t: TaskId, u: TaskId, s: TaskState)
    requires Lost(tasks, states, t) && Allowed(tasks, states, Mark(u, s))
    ensures Lost(tasks, Made(tasks, states, Mark(u, s)), t)
  {
    if Doomed(tasks, states, t) {
      var p :| DoomChain(tasks, states, p) && p[0] == t;
      forall i | 0 <= i < |p| ensures p[i] != u {
        if i < |p| - 1 {
          assert Needs(tasks, p[i], p[i + 1]);
          assert i + 1 < |p| - 1 ==> p[i + 1] in states && Waiting(states[p[i + 1]]);
          assert !Runnable(tasks, states, p[i]);
        }
      }
      assert DoomChain(tasks, Made(tasks, states, Mark(u, s)), p);
    }
  }

  lemma MoveKeepsLost(tasks: Graph, states: States, t: TaskId, m: Move)
    requires Lost(tasks, states, t) && Allowed(tasks, states, m)
    ensures Lost(tasks, Made(tasks, states, m), t)
  {
    match m
    case GetReady(order) =>
      NothingSkippedByNoStep(tasks, states);
      PassReached(tasks, states, states, order);
      var now := After(tasks, states, order).states;
      assert CameFrom(tasks, states, t, now[t]);
      if Doomed(tasks, states, t) {
        var p :| DoomChain(tasks, states, p) && p[0] == t;
        DoomRemains(tasks, states, now, p);
      }
    case Mark(u, s) =>
      MarkKeepsLost(tasks, states, t, u, s);
  }

  lemma {:induction false} RunKeepsLost(tasks: Graph, states: States, moves: seq<Move>, t: TaskId)
    requires Lost(tasks, states, t) && AllAllowed(tasks, states, moves)
    ensures Lost(tasks, AfterMoves(tasks, states, moves), t)
  {
    if moves != [] {
      var n := |moves| - 1;
      RunKeepsLost(tasks, states, moves[..n], t);
      hide Lost, Made, Allowed;
      MoveKeepsLost(tasks, AfterMoves(tasks, states, moves[..n]), t, moves[n]);
    }
  }

  /** A doomed task stays doomed or is skipped, and no pass in any later run finds it ready. */
  lemma DoomedNeverRuns(tasks: Graph, states: States, moves: seq<Move>, order: seq<TaskId>, t: TaskId)
    requires Doomed(tasks, states, t) && AllAllowed(tasks, states, moves) && Distinct(order)
    ensures Lost(tasks, AfterMoves(tasks, states, moves), t)
    ensures t !in After(tasks, AfterMoves(tasks, states, moves), order).ready
  {
    var p :| DoomChain(tasks, states, p) && p[0] == t;
    DoomTail(tasks, states, p);
    RunKeepsLost(tasks, states, moves, t);
    var end := AfterMoves(tasks, states, moves);
    hide Doomed;
    if Doomed(tasks, end, t) {
      DoomedIsNotSupplied(tasks, end, t);
    }
    ReadyIffRunnable(tasks, end, order, t);
  }

  // ---------- What is not doomed can be completed ----------

  /** As far as a task can be brought. */
  ghost function Furthest(tasks: Graph, states: States, t: TaskId): TaskState
    requires t in states
  {
    if Started(states[t]) || (Waiting(states[t]) && !Doomed(tasks, states, t)) then COMPLETED else states[t]
  }

  /** The states when the first `i` tasks of an order have been brought as far as they can. */
  ghost predicate Best(tasks: Graph, states: States, now: States, order: seq<TaskId>, i: nat)
    requires i <= |order|
  {
    && now.Keys == states.Keys
    && (forall t :: t in states && t in order[..i] ==> now[t] == Furthest(tasks, states, t))
    && (forall t :: t in states && t !in order[..i] ==> now[t] == states[t])
  }

  lemma BestNext(tasks: Graph, states: States, now: States, order: seq<TaskId>, i: nat)
    requires Distinct(order) && i < |order| && order[i] in states && Best(tasks, states, now, order, i)
    ensures Best(tasks, states, now[order[i] := Furthest(tasks, states, order[i])], order, i + 1)
    ensures order[i] in now && now[order[i]] == states[order[i]]
  {
    hide Furthest;
    assert order[..i + 1] == order[..i] + [order[i]];
    assert order[i] !in order[..i];
  }

  lemma NextCanRun(tasks: Graph, states: States, now: States, order: seq<TaskId>, i: nat)
    requires Lists(order, tasks) && Respects(tasks, order) && Covers(states, tasks)
    requires i < |order| && Best(tasks, states, now, order, i)
    requires Waiting(states[order[i]]) && !Doomed(tasks, states, order[i])
    ensures Runnable(tasks, now, order[i])
  {
    var t := order[i];
    assert t !in order[..i];
    forall d | d in tasks[t] ensures d in now && now[d] == COMPLETED {
      assert Needs(tasks, t, d);
      if Dead(states, d) || Doomed(tasks, states, d) {
        DoomGrows(tasks, states, t, d);
      }
      hide Doomed;
      assert d in tasks;
      assert Edge(tasks, t, d);
    }
  }

  lemma NothingDone(tasks: Graph, states: States, order: seq<TaskId>)
    ensures AllAllowed(tasks, states, []) && Best(tasks, states, AfterMoves(tasks, states, []), order, 0)
  {
  }

  lemma ListedHasState(tasks: Graph, states: States, order: seq<TaskId>, i: nat)
    requires Lists(order, tasks) && Covers(states, tasks) && i < |order|
    ensures Distinct(order) && order[i] in states
  {
    assert order[i] in order;
  }

  lemma FurthestIs(tasks: Graph, states: States, t: TaskId)
    requires t in states
    ensures Furthest(tasks, states, t)
      == if Started(states[t]) || (Waiting(states[t]) && !Doomed(tasks, states, t)) then COMPLETED else states[t]
  {
  }

  lemma {:induction false} BestRun(tasks: Graph, states: States, order: seq<TaskId>, i: nat) returns (moves: seq<Move>)
    requires Lists(order, tasks) && Respects(tasks, order) && Covers(states, tasks) && i <= |order|
    ensures AllAllowed(tasks, states, moves)
    ensures Best(tasks, states, AfterMoves(tasks, states, moves), order, i)
    decreases i
  {
    hide AllAllowed, AfterMoves, Best, Respects, Covers, Lists, Furthest, Doomed, Runnable;
    if i == 0 {
      NothingDone(tasks, states, order);
      return [];
    }
    moves := BestRun(tasks, states, order, i - 1);
    var t, now := order[i - 1], AfterMoves(tasks, states, moves);
    ListedHasState(tasks, states, order, i - 1);
    BestNext(tasks, states, now, order, i - 1);
    FurthestIs(tasks, states, t);
    if Waiting(states[t]) && !Doomed(tasks, states, t) {
      NextCanRun(tasks, states, now, order, i - 1);
      moves := StartAndComplete(tasks, states, moves, t);
    } else if Started(states[t]) {
      MoveNext(tasks, states, moves, Mark(t, COMPLETED));
      moves := moves + [Mark(t, COMPLETED)];
    } else {
      assert now[t := now[t]] == now;
    }
  }

  lemma StartAndComplete(tasks: Graph, states: States, moves: seq<Move>, t: TaskId) returns (longer: seq<Move>)
    requires AllAllowed(tasks, states, moves) && Runnable(tasks, AfterMoves(tasks, states, moves), t)
    ensures AllAllowed(tasks, states, longer)
    ensures AfterMoves(tasks, states, longer) == AfterMoves(tasks, states, moves)[t := COMPLETED]
  {
    hide Runnable;
    assert t in AfterMoves(tasks, states, moves) by {
      RunnableIsTask(tasks, AfterMoves(tasks, states, moves), t);
    }
    MoveNext(tasks, states, moves, Mark(t, RUNNING));
    longer := moves + [Mark(t, RUNNING)];
    MoveNext(tasks, states, longer, Mark(t, COMPLETED));
    longer := longer + [Mark(t, COMPLETED)];
  }

  lemma RunnableIsTask(tasks: Graph, states: States, t: TaskId)
    ensures Runnable(tasks, states, t) ==> t in states
  {
  }

  lemma MoveNext(tasks: Graph, states: States, moves: seq<Move>, m: Move)
    requires AllAllowed(tasks, states, moves) && Allowed(tasks, AfterMoves(tasks, states, moves), m)
    ensures AllAllowed(tasks, states, moves + [m])
    ensures AfterMoves(tasks, states, moves + [m]) == Made(tasks, AfterMoves(tasks, states, moves), m)
  {
    assert (moves + [m])[..|moves|] == moves;
  }

  lemma LostIsNotCompleted(tasks: Graph, states: States, t: TaskId)
    requires Lost(tasks, states, t)
    ensures states[t] != COMPLETED
  {
    if Doomed(tasks, states, t) {
      var p :| DoomChain(tasks, states, p) && p[0] == t;
      DoomTail(tasks, states, p);
    }
  }

  /** Some run of the scheduler completes the task. */
  ghost predicate Completable(tasks: Graph, states: States, t: TaskId) {
    exists moves :: AllAllowed(tasks, states, moves)
      && t in AfterMoves(tasks, states, moves) && AfterMoves(tasks, states, moves)[t] == COMPLETED
  }

  /** In a plan that passed the cycle check, some run completes a waiting task exactly when it is not doomed. */
  lemma CompletableIff(tasks: Graph, states: States, all: seq<TaskId>, t: TaskId)
    requires Lists(all, tasks) && !Cyclic(tasks) && Covers(states, tasks)
    requires t in tasks && Waiting(states[t])
    ensures Completable(tasks, states, t) <==> !Doomed(tasks, states, t)
  {
    if Doomed(tasks, states, t) {
      forall moves | AllAllowed(tasks, states, moves) ensures Lost(tasks, AfterMoves(tasks, states, moves), t) {
        RunKeepsLost(tasks, states, moves, t);
      }
      forall now | Lost(tasks, now, t) ensures now[t] != COMPLETED {
        LostIsNotCompleted(tasks, now, t);
      }
    } else {
      var order := AcyclicCanBeListed(tasks, all, []);
      var moves := BestRun(tasks, states, order, |order|);
      assert order[..|order|] == order;
      assert AfterMoves(tasks, states, moves)[t] == COMPLETED;
    }
  }
}

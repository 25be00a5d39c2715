/**
 What repeated passes over a plan come to. A pass skips a task behind a skipped one only when it
 comes to it late enough, so single passes depend on the order of the dictionary; the states at
 which further passes change nothing do not.
 */
module TaskSettling {
  import opened Pigeonhole
  import opened TaskDag
  import opened TaskGraph
  import opened Tasks

  predicate Skipped(s: TaskState) {
    s in {SKIPPED, SKIPPED_REDUNDANT}
  }

  // ---------- What one scan means ----------

  /** No dependency before the one at `k` is missing or failed. */
  ghost predicate ClearBefore(dependencies: seq<TaskId>, states: States, k: nat)
    requires k <= |dependencies|
  {
    forall j :: 0 <= j < k ==> dependencies[j] in states && states[dependencies[j]] != FAILED
  }

  ghost predicate SkipsAt(dependencies: seq<TaskId>, states: States, k: nat)
    requires k < |dependencies|
  {
    dependencies[k] in states && Skipped(states[dependencies[k]]) && ClearBefore(dependencies, states, k)
  }

  ghost predicate SkippedBy(dependencies: seq<TaskId>, states: States) {
    exists k :: 0 <= k < |dependencies| && SkipsAt(dependencies, states, k)
  }

  /** Some dependency is missing or failed. */
  ghost predicate Failing(dependencies: seq<TaskId>, states: States) {
    exists d :: d in dependencies && (d !in states || states[d] == FAILED)
  }

  lemma {:induction false} ScanFinds(dependencies: seq<TaskId>, states: States)
    ensures var scan := Scanned(dependencies, states);
      && (scan.skipped && !scan.missing <==> SkippedBy(dependencies, states))
      && (!SkippedBy(dependencies, states) ==> (scan.missing || scan.failed <==> Failing(dependencies, states)))
  {
    if dependencies != [] {
      var d, rest := dependencies[0], dependencies[1..];
      ScanFinds(rest, states);
      assert d in dependencies && forall x :: x in dependencies <==> x == d || x in rest;
      if d in states && states[d] != FAILED {
        if Skipped(states[d]) {
          assert SkipsAt(dependencies, states, 0);
        } else {
          forall k | 0 <= k < |rest| ensures SkipsAt(rest, states, k) <==> SkipsAt(dependencies, states, k + 1) {
            ClearShifts(dependencies, states, k);
          }
          assert forall k ::
            0 < k < |dependencies| && SkipsAt(dependencies, states, k) ==> SkipsAt(rest, states, k - 1);
        }
      } else {
        assert forall k :: 0 < k < |dependencies| ==> !ClearBefore(dependencies, states, k);
      }
    }
  }

  lemma ClearShifts(dependencies: seq<TaskId>, states: States, k: nat)
    requires k < |dependencies| && dependencies[0] in states && states[dependencies[0]] != FAILED
    ensures ClearBefore(dependencies[1..], states, k) <==> ClearBefore(dependencies, states, k + 1)
  {
    var rest := dependencies[1..];
    assert forall j :: 0 <= j < k ==> rest[j] == dependencies[j + 1];
    assert forall j :: 0 < j < k + 1 ==> dependencies[j] == rest[j - 1];
  }

  /** Where a waiting task moves, without the scan: the first failed, missing or skipped dependency decides. */
  lemma NextStateIs(dependencies: seq<TaskId>, states: States, now: TaskState)
    requires Waiting(now)
    ensures NextState(Scanned(dependencies, states), now) ==
      if SkippedBy(dependencies, states) then SKIPPED_REDUNDANT
      else if Failing(dependencies, states) then BLOCKED
      else if Supplied(dependencies, states) then READY
      else now
  {
    hide SkippedBy, Failing, Scanned, Supplied;
    ScanFinds(dependencies, states);
    SatisfiedIff(dependencies, states);
    SkippedIsNotSatisfied(dependencies, states);
  }

  lemma {:induction false} SkippedIsNotSatisfied(dependencies: seq<TaskId>, states: States)
    ensures var scan := Scanned(dependencies, states); scan.skipped ==> !scan.satisfied && !scan.failed
    ensures var scan := Scanned(dependencies, states); scan.failed ==> !scan.satisfied
  {
    if dependencies != [] {
      SkippedIsNotSatisfied(dependencies[1..], states);
    }
  }

  // ---------- Which tasks will be skipped ----------

  /** Waiting task `a` is skipped once `b` is. */
  ghost predicate SkipLink(tasks: Graph, states: States, a: TaskId, b: TaskId) {
    && a in tasks && a in states && Waiting(states[a])
    && exists k :: 0 <= k < |tasks[a]| && tasks[a][k] == b && ClearBefore(tasks[a], states, k)
  }

  /** A chain of such tasks leads to one that is skipped already. */
  ghost predicate SkipChain(tasks: Graph, states: States, p: seq<TaskId>) {
    && |p| > 1 && (forall i :: 0 <= i < |p| - 1 ==> SkipLink(tasks, states, p[i], p[i + 1]))
    && p[|p| - 1] in states && Skipped(states[p[|p| - 1]])
  }

  ghost predicate WillSkip(tasks: Graph, states: States, t: TaskId) {
    exists p :: SkipChain(tasks, states, p) && p[0] == t
  }

  lemma SkipChainGrows(tasks: Graph, states: States, a: TaskId, b: TaskId)
    requires SkipLink(tasks, states, a, b) && b in states && (Skipped(states[b]) || WillSkip(tasks, states, b))
    ensures WillSkip(tasks, states, a)
  {
    hide SkipLink;
    if Skipped(states[b]) {
      assert SkipChain(tasks, states, [a, b]);
    } else {
      var p :| SkipChain(tasks, states, p) && p[0] == b;
      var q := [a] + p;
      forall i | 0 <= i < |q| - 1 ensures SkipLink(tasks, states, q[i], q[i + 1]) {
        assert i > 0 ==> q[i] == p[i - 1] && q[i + 1] == p[i];
      }
      assert SkipChain(tasks, states, q);
    }
  }

  // ---------- What passes keep ----------

  /** One task of a pass. */
  function Moved(tasks: Graph, states: States, t: TaskId): States {
    if t !in tasks || t !in states || !Waiting(states[t]) then states
    else states[t := NextState(Scanned(tasks[t], states), states[t])]
  }

  lemma MovedNext(tasks: Graph, states: States, order: seq<TaskId>)
    requires order != []
    ensures After(tasks, states, order).states
      == Moved(tasks, After(tasks, states, order[..|order| - 1]).states, order[|order| - 1])
  {
  }

  /** The states after passes over these orders, one after the other. */
  function Passes(tasks: Graph, states: States, orders: seq<seq<TaskId>>): States {
    if orders == [] then states
    else After(tasks, Passes(tasks, states, orders[..|orders| - 1]), orders[|orders| - 1]).states
  }

  /** A task in `now`, when it was in `before` at first: what one or more passes can have done to it. */
  ghost predicate CameFrom(tasks: Graph, states: States, t: TaskId, now: TaskState)
    requires t in states
  {
    if t !in tasks || !Waiting(states[t]) then now == states[t]
    else
      || (now == SKIPPED_REDUNDANT && WillSkip(tasks, states, t))
      || (Waiting(now) && (now == states[t] || Failing(tasks[t], states) || Supplied(tasks[t], states)))
  }

  ghost predicate Reached(tasks: Graph, states: States, now: States) {
    now.Keys == states.Keys && forall t :: t in states ==> CameFrom(tasks, states, t, now[t])
  }

  /** What a scan looks at never changes, but for tasks that become skipped. */
  lemma ReachedLooks(tasks: Graph, states: States, now: States, dependencies: seq<TaskId>)
    requires Reached(tasks, states, now)
    ensures Failing(dependencies, now) <==> Failing(dependencies, states)
    ensures Supplied(dependencies, now) <==> Supplied(dependencies, states)
    ensures forall k: nat | k <= |dependencies| ::
      ClearBefore(dependencies, now, k) <==> ClearBefore(dependencies, states, k)
  {
    assert forall d :: d in states ==> CameFrom(tasks, states, d, now[d]);
    forall d | d in states
      ensures now[d] == FAILED <==> states[d] == FAILED
      ensures now[d] == COMPLETED <==> states[d] == COMPLETED
    {
      assert CameFrom(tasks, states, d, now[d]);
      hide Failing, Supplied, WillSkip;
    }
  }

  lemma MovedKeeps(tasks: Graph, states: States, now: States, t: TaskId)
    requires Reached(tasks, states, now)
    ensures Reached(tasks, states, Moved(tasks, now, t))
  {
    if t in tasks && t in now && Waiting(now[t]) {
      ReachedLooks(tasks, states, now, tasks[t]);
      assert CameFrom(tasks, states, t, now[t]);
      hide Failing, Supplied, Scanned;
      NextStateIs(tasks[t], now, now[t]);
      if SkippedBy(tasks[t], now) {
        MovedIsSkipped(tasks, states, now, t);
      }
    }
  }

  lemma MovedIsSkipped(tasks: Graph, states: States, now: States, t: TaskId)
    requires Reached(tasks, states, now)
    requires t in tasks && t in states && Waiting(states[t]) && SkippedBy(tasks[t], now)
    ensures WillSkip(tasks, states, t)
  {
    ReachedLooks(tasks, states, now, tasks[t]);
    var k :| 0 <= k < |tasks[t]| && SkipsAt(tasks[t], now, k);
    var d := tasks[t][k];
    assert SkipLink(tasks, states, t, d);
    assert CameFrom(tasks, states, d, now[d]);
    hide SkipLink, WillSkip;
    SkipChainGrows(tasks, states, t, d);
  }

  lemma {:induction false} PassReached(tasks: Graph, states: States, now: States, order: seq<TaskId>)
    requires Reached(tasks, states, now)
    ensures Reached(tasks, states, After(tasks, now, order).states)
  {
    if order != [] {
      PassReached(tasks, states, now, order[..|order| - 1]);
      MovedNext(tasks, now, order);
      hide Reached, After;
      MovedKeeps(tasks, states, After(tasks, now, order[..|order| - 1]).states, order[|order| - 1]);
    }
  }

  lemma {:induction false} PassesReached(tasks: Graph, states: States, orders: seq<seq<TaskId>>)
    ensures Reached(tasks, states, Passes(tasks, states, orders))
  {
    if orders != [] {
      var n := |orders| - 1;
      PassesReached(tasks, states, orders[..n]);
      PassReached(tasks, states, Passes(tasks, states, orders[..n]), orders[n]);
    }
  }

  // ---------- Settled states ----------

  /** Every waiting task is where its scan puts it. */
  ghost predicate Settled(tasks: Graph, states: States) {
    forall t :: t in tasks && t in states && Waiting(states[t])
      ==> NextState(Scanned(tasks[t], states), states[t]) == states[t]
  }

  /** Equally, a pass over all tasks changes nothing. */
  lemma {:induction false} SettledIffUnchanged(tasks: Graph, states: States, order: seq<TaskId>)
    requires Lists(order, tasks)
    ensures Settled(tasks, states) <==> After(tasks, states, order).states == states
  {
    if Settled(tasks, states) {
      SettledStays(tasks, states, order);
    }
    if After(tasks, states, order).states == states {
      forall i | 0 <= i < |order| ensures Moved(tasks, states, order[i]) == states {
        UnchangedSteps(tasks, states, order, i + 1);
        UnchangedSteps(tasks, states, order, i);
        MovedNext(tasks, states, order[..i + 1]);
        assert order[..i + 1][..i] == order[..i];
      }
      forall t | t in tasks && t in states && Waiting(states[t])
        ensures NextState(Scanned(tasks[t], states), states[t]) == states[t]
      {
        var i :| 0 <= i < |order| && order[i] == t;
        assert Moved(tasks, states, order[i]) == states;
      }
    }
  }

  lemma {:induction false} SettledStays(tasks: Graph, states: States, order: seq<TaskId>)
    requires Settled(tasks, states)
    ensures After(tasks, states, order).states == states
  {
    if order != [] {
      SettledStays(tasks, states, order[..|order| - 1]);
      MovedNext(tasks, states, order);
      hide After;
      var t := order[|order| - 1];
      assert t in tasks && t in states && Waiting(states[t]) ==> states[t := states[t]] == states;
    }
  }

  /** A pass that ends where it began never left. */
  lemma {:induction false} UnchangedSteps(tasks: Graph, states: States, order: seq<TaskId>, i: nat)
    requires Distinct(order) && After(tasks, states, order).states == states && i <= |order|
    ensures After(tasks, states, order[..i]).states == states
    decreases |order|
  {
    if i == |order| {
      assert order[..i] == order;
    } else {
      var n := |order| - 1;
      var before := After(tasks, states, order[..n]).states;
      PassKeeps(tasks, states, order[..n]);
      assert order[n] !in order[..n];
      MovedNext(tasks, states, order);
      hide After;
      forall t | t in states ensures before[t] == states[t] {
      }
      assert before == states;
      UnchangedSteps(tasks, states, order[..n], i);
      assert order[..n][..i] == order[..i];
    }
  }

  // ---------- Where passes end ----------

  /** Where a task ends, told from the states at first. */
  ghost function Outcome(tasks: Graph, states: States, t: TaskId): TaskState
    requires t in states
  {
    if t !in tasks || !Waiting(states[t]) then states[t]
    else if WillSkip(tasks, states, t) then SKIPPED_REDUNDANT
    else if Failing(tasks[t], states) then BLOCKED
    else if Supplied(tasks[t], states) then READY
    else states[t]
  }

  /** In a settled state the chains have been followed to their start. */
  lemma {:induction false} ChainIsFollowed(tasks: Graph, states: States, now: States, p: seq<TaskId>)
    requires Reached(tasks, states, now) && Settled(tasks, now) && SkipChain(tasks, states, p)
    ensures p[0] in now && now[p[0]] == SKIPPED_REDUNDANT
    decreases |p|
  {
    var t, d := p[0], p[1];
    assert SkipLink(tasks, states, p[0], p[0 + 1]);
    if |p| > 2 {
      var q := p[1..];
      forall i | 0 <= i < |q| - 1 ensures SkipLink(tasks, states, q[i], q[i + 1]) {
        assert SkipLink(tasks, states, p[i + 1], p[i + 1 + 1]);
      }
      ChainIsFollowed(tasks, states, now, q);
    }
    assert CameFrom(tasks, states, d, now[d]) && CameFrom(tasks, states, t, now[t]);
    assert Skipped(now[d]);
    ReachedLooks(tasks, states, now, tasks[t]);
    var k :| 0 <= k < |tasks[t]| && tasks[t][k] == d && ClearBefore(tasks[t], states, k);
    assert SkipsAt(tasks[t], now, k);
    if Waiting(now[t]) {
      NextStateIs(tasks[t], now, now[t]);
    }
  }

  lemma SettledOne(tasks: Graph, states: States, now: States, t: TaskId)
    requires Reached(tasks, states, now) && Settled(tasks, now) && t in states
    ensures now[t] == Outcome(tasks, states, t)
  {
    assert CameFrom(tasks, states, t, now[t]);
    if t in tasks && Waiting(states[t]) {
      if WillSkip(tasks, states, t) {
        var p :| SkipChain(tasks, states, p) && p[0] == t;
        ChainIsFollowed(tasks, states, now, p);
      } else {
        hide WillSkip, Failing, Supplied;
        NextStateIs(tasks[t], now, now[t]);
        ReachedLooks(tasks, states, now, tasks[t]);
      }
    }
  }

  /**
   Once passes, any number of them and in any orders, have come to a state that further passes
   leave alone, every task is where the states at first say.
   */
  lemma SettledIsOutcome(tasks: Graph, states: States, orders: seq<seq<TaskId>>, t: TaskId)
    requires Settled(tasks, Passes(tasks, states, orders)) && t in states
    ensures t in Passes(tasks, states, orders) && Passes(tasks, states, orders)[t] == Outcome(tasks, states, t)
  {
    PassesReached(tasks, states, orders);
    hide Settled, Outcome, Passes;
    SettledOne(tasks, states, Passes(tasks, states, orders), t);
  }

  /** So all orders lead to the same states. */
  lemma PassesAreConfluent(tasks: Graph, states: States, a: seq<seq<TaskId>>, b: seq<seq<TaskId>>)
    requires Settled(tasks, Passes(tasks, states, a)) && Settled(tasks, Passes(tasks, states, b))
    ensures Passes(tasks, states, a) == Passes(tasks, states, b)
  {
    PassesReached(tasks, states, a);
    PassesReached(tasks, states, b);
    hide Settled, Outcome, Passes;
    forall t | t in states ensures Passes(tasks, states, a)[t] == Passes(tasks, states, b)[t] {
      SettledIsOutcome(tasks, states, a, t);
      SettledIsOutcome(tasks, states, b, t);
    }
  }

  // ---------- How many passes it takes ----------

  /** A scan of these dependencies cannot tell the states apart. */
  ghost predicate LookSame(dependencies: seq<TaskId>, a: States, b: States) {
    forall d :: d in dependencies ==>
      && (d in a <==> d in b)
      && (d in a ==>
            && (a[d] == FAILED <==> b[d] == FAILED) && (a[d] == COMPLETED <==> b[d] == COMPLETED)
            && (Skipped(a[d]) <==> Skipped(b[d])))
  }

  lemma {:induction false} SameScan(dependencies: seq<TaskId>, a: States, b: States)
    requires LookSame(dependencies, a, b)
    ensures Scanned(dependencies, a) == Scanned(dependencies, b)
  {
    if dependencies != [] {
      assert dependencies[0] in dependencies && forall d :: d in dependencies[1..] ==> d in dependencies;
      SameScan(dependencies[1..], a, b);
    }
  }

  lemma {:induction false} LaterTasksOnly(tasks: Graph, states: States, order: seq<TaskId>, i: nat, t: TaskId)
    requires i <= |order| && t !in order[i..] && t in states
    ensures After(tasks, states, order).states[t] == After(tasks, states, order[..i]).states[t]
    decreases |order|
  {
    if i == |order| {
      assert order[..i] == order;
    } else {
      var n := |order| - 1;
      assert order[n] == order[i..][n - i] && order[..n][i..] == order[i..][..n - i];
      LaterTasksOnly(tasks, states, order[..n], i, t);
      assert order[..n][..i] == order[..i];
    }
  }

  /** A pass settles a task when what its scan looks at is the same at the end. */
  lemma StepSettles(tasks: Graph, states: States, order: seq<TaskId>, i: nat)
    requires Distinct(order) && i < |order| && order[i] in tasks && order[i] in states
    requires LookSame(tasks[order[i]], After(tasks, states, order[..i]).states, After(tasks, states, order).states)
    ensures var t, end := order[i], After(tasks, states, order).states;
      Waiting(end[t]) ==> NextState(Scanned(tasks[t], end), end[t]) == end[t]
  {
    hide After;
    var t, before := order[i], After(tasks, states, order[..i]).states;
    assert t !in order[i + 1..];
    LaterTasksOnly(tasks, states, order, i + 1, t);
    MovedNext(tasks, states, order[..i + 1]);
    assert order[..i + 1][..i] == order[..i];
    SameScan(tasks[t], before, After(tasks, states, order).states);
    hide Scanned;
  }

  ghost function SkippedTasks(states: States): set<TaskId> {
    set t | t in states && Skipped(states[t])
  }

  /** Skipped tasks stay skipped in every step. */
  lemma {:induction false} SkipsGrow(tasks: Graph, states: States, order: seq<TaskId>, i: nat)
    requires i <= |order|
    ensures SkippedTasks(After(tasks, states, order[..i]).states) <= SkippedTasks(After(tasks, states, order).states)
    decreases |order|
  {
    if i == |order| {
      assert order[..i] == order;
    } else {
      SkipsGrow(tasks, states, order[..|order| - 1], i);
      assert order[..|order| - 1][..i] == order[..i];
      MovedNext(tasks, states, order);
    }
  }

  /** A pass that skips nothing new has settled the plan. */
  lemma QuietPassSettles(tasks: Graph, states: States, order: seq<TaskId>)
    requires Lists(order, tasks)
    requires SkippedTasks(After(tasks, states, order).states) <= SkippedTasks(states)
    ensures Settled(tasks, After(tasks, states, order).states)
  {
    var end := After(tasks, states, order).states;
    PassKeeps(tasks, states, order);
    forall t | t in tasks && t in end && Waiting(end[t]) ensures NextState(Scanned(tasks[t], end), end[t]) == end[t] {
      var i :| 0 <= i < |order| && order[i] == t;
      var middle := After(tasks, states, order[..i]).states;
      MiddleLooksLikeEnd(tasks, states, order, i);
      StepSettles(tasks, states, order, i);
    }
  }

  lemma SameSkips(a: States, b: States, t: TaskId)
    requires SkippedTasks(a) == SkippedTasks(b) && t in a && t in b
    ensures Skipped(a[t]) <==> Skipped(b[t])
  {
    assert t in SkippedTasks(a) <==> t in SkippedTasks(b);
  }

  lemma CameFromKeeps(tasks: Graph, states: States, t: TaskId, now: TaskState)
    requires t in states && CameFrom(tasks, states, t, now)
    ensures now == FAILED <==> states[t] == FAILED
    ensures now == COMPLETED <==> states[t] == COMPLETED
  {
    hide Failing, Supplied, WillSkip;
  }

  lemma MiddleLooksLikeEnd(tasks: Graph, states: States, order: seq<TaskId>, i: nat)
    requires i < |order| && order[i] in tasks
    requires SkippedTasks(After(tasks, states, order).states) <= SkippedTasks(states)
    ensures LookSame(tasks[order[i]], After(tasks, states, order[..i]).states, After(tasks, states, order).states)
  {
    hide After, SkippedTasks, CameFrom;
    var middle, end := After(tasks, states, order[..i]).states, After(tasks, states, order).states;
    SkipsGrow(tasks, states, order, i);
    SkipsGrow(tasks, states, order[..i], 0);
    assert order[..i][..0] == [];
    NothingSkippedByNoStep(tasks, states);
    PassReached(tasks, states, states, order[..i]);
    PassReached(tasks, states, states, order);
    forall d | d in states
      ensures Skipped(middle[d]) <==> Skipped(end[d])
      ensures middle[d] == FAILED <==> end[d] == FAILED
      ensures middle[d] == COMPLETED <==> end[d] == COMPLETED
    {
      SameSkips(middle, end, d);
      CameFromKeeps(tasks, states, d, middle[d]);
      CameFromKeeps(tasks, states, d, end[d]);
    }
  }

  lemma NothingSkippedByNoStep(tasks: Graph, states: States)
    ensures After(tasks, states, []).states == states
    ensures Reached(tasks, states, states)
  {
  }

  /** As many passes as there are tasks, and one more, always settle the plan. */
  lemma PassesSettle(tasks: Graph, states: States, orders: seq<seq<TaskId>>)
    requires |orders| > |states| && forall k :: 0 <= k < |orders| ==> Lists(orders[k], tasks)
    ensures Settled(tasks, Passes(tasks, states, orders))
  {
    PassesProgress(tasks, states, orders);
    PassesReached(tasks, states, orders);
    var end := Passes(tasks, states, orders);
    SubsetSize(SkippedTasks(end), states.Keys);
  }

  lemma {:induction false} PassesProgress(tasks: Graph, states: States, orders: seq<seq<TaskId>>)
    requires forall k :: 0 <= k < |orders| ==> Lists(orders[k], tasks)
    ensures var end := Passes(tasks, states, orders); Settled(tasks, end) || |SkippedTasks(end)| >= |orders|
  {
    hide Settled, SkippedTasks, Lists, After;
    if orders != [] {
      var n := |orders| - 1;
      PassesProgress(tasks, states, orders[..n]);
      var before := Passes(tasks, states, orders[..n]);
      PassProgress(tasks, before, orders[n], n);
    }
  }

  lemma PassProgress(tasks: Graph, states: States, order: seq<TaskId>, n: nat)
    requires Lists(order, tasks) && (Settled(tasks, states) || |SkippedTasks(states)| >= n)
    ensures var end := After(tasks, states, order).states; Settled(tasks, end) || |SkippedTasks(end)| >= n + 1
  {
    var end := After(tasks, states, order).states;
    if Settled(tasks, states) {
      SettledStays(tasks, states, order);
    } else if SkippedTasks(end) <= SkippedTasks(states) {
      QuietPassSettles(tasks, states, order);
    } else {
      SkipsGrow(tasks, states, order, 0);
      assert order[..0] == [];
      NothingSkippedByNoStep(tasks, states);
      StrictSubsetSize(SkippedTasks(states), SkippedTasks(end));
    }
  }

  /** One pass is enough when it comes to each task after its dependencies. */
  lemma OrderedPassSettles(tasks: Graph, states: States, order: seq<TaskId>)
    requires Lists(order, tasks) && Respects(tasks, order)
    ensures Settled(tasks, After(tasks, states, order).states)
  {
    hide After, Scanned, NextState;
    var end := After(tasks, states, order).states;
    forall t | t in tasks && t in end && Waiting(end[t]) ensures NextState(Scanned(tasks[t], end), end[t]) == end[t] {
      var i :| 0 <= i < |order| && order[i] == t;
      forall d | d in tasks[t] && d in states ensures After(tasks, states, order[..i]).states[d] == end[d] {
        assert d in tasks ==> Edge(tasks, t, d);
        assert d !in order[i..];
        LaterTasksOnly(tasks, states, order, i, d);
      }
      StepSettles(tasks, states, order, i);
    }
  }

  /** One pass is enough, in any order, when no task is skipped to begin with. */
  lemma UnskippedPassSettles(tasks: Graph, states: States, order: seq<TaskId>)
    requires Lists(order, tasks) && forall t :: t in states ==> !Skipped(states[t])
    ensures Settled(tasks, After(tasks, states, order).states)
    ensures forall t :: !WillSkip(tasks, states, t)
  {
    NothingSkippedByNoStep(tasks, states);
    PassReached(tasks, states, states, order);
    var end := After(tasks, states, order).states;
    hide After;
    forall t | t in end ensures !Skipped(end[t]) {
      assert CameFrom(tasks, states, t, end[t]);
    }
    assert SkippedTasks(end) == {};
    QuietPassSettles(tasks, states, order);
  }
}

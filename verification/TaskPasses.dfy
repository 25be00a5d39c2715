/**
 What one pass over a plan does, in any order: a task is skipped exactly when a chain of tasks leads
 from it to a skipped one and the pass comes to them in turn, the last first.
 */
module TaskPasses {
  import opened Pigeonhole
  import opened TaskDag
  import opened TaskGraph
  import opened TaskSettling
  import opened Tasks

  ghost predicate Before(order: seq<TaskId>, a: TaskId, b: TaskId) {
    exists i, j :: 0 <= i < j < |order| && order[i] == a && order[j] == b
  }

  /** A chain to a skipped task that the pass over `order` meets from its far end to its start. */
  ghost predicate TurnChain(tasks: Graph, states: States, order: seq<TaskId>, p: seq<TaskId>) {
    && SkipChain(tasks, states, p) && p[0] in order
    && forall i :: 0 <= i < |p| - 2 ==> Before(order, p[i + 1], p[i])
  }

  ghost predicate SkipsInTurn(tasks: Graph, states: States, order: seq<TaskId>, t: TaskId) {
    exists p :: TurnChain(tasks, states, order, p) && p[0] == t
  }

  lemma BeforeInPrefix(order: seq<TaskId>, n: nat, a: TaskId, b: TaskId)
    requires Distinct(order) && n <= |order|
    ensures Before(order[..n], a, b) ==> Before(order, a, b)
    ensures Before(order, a, b) && b in order[..n] ==> Before(order[..n], a, b) && a in order[..n]
  {
    if i, j :| 0 <= i < j < n && order[..n][i] == a && order[..n][j] == b {
      assert order[i] == a && order[j] == b;
    }
    if Before(order, a, b) && b in order[..n] {
      var i, j :| 0 <= i < j < |order| && order[i] == a && order[j] == b;
      var k :| 0 <= k < n && order[..n][k] == b;
      assert j == k && order[..n][i] == a;
    }
  }

  /** Every task of such a chain but its end is met no later than its start. */
  lemma {:induction false} TurnChainInPrefix(
      tasks: Graph, states: States, order: seq<TaskId>, n: nat, p: seq<TaskId>, i: nat)
    requires Distinct(order) && n <= |order| && TurnChain(tasks, states, order, p)
    requires p[0] in order[..n] && i < |p| - 1
    ensures p[i] in order[..n]
  {
    if i > 0 {
      TurnChainInPrefix(tasks, states, order, n, p, i - 1);
      assert Before(order, p[i - 1 + 1], p[i - 1]);
      BeforeInPrefix(order, n, p[i], p[i - 1]);
    }
  }

  /** Such a chain in a prefix of the order is one in the whole order, and the other way round. */
  lemma TurnInPrefix(tasks: Graph, states: States, order: seq<TaskId>, n: nat, p: seq<TaskId>)
    requires Distinct(order) && n <= |order|
    ensures TurnChain(tasks, states, order[..n], p) <==>
      TurnChain(tasks, states, order, p) && p[0] in order[..n]
  {
    hide SkipChain;
    if |p| > 0 && p[0] in order[..n] {
      if TurnChain(tasks, states, order, p) {
        forall i | 0 <= i < |p| - 2 ensures Before(order[..n], p[i + 1], p[i]) {
          TurnChainInPrefix(tasks, states, order, n, p, i);
          BeforeInPrefix(order, n, p[i + 1], p[i]);
        }
      }
      if TurnChain(tasks, states, order[..n], p) {
        forall i | 0 <= i < |p| - 2 ensures Before(order, p[i + 1], p[i]) {
          BeforeInPrefix(order, n, p[i + 1], p[i]);
        }
      }
    }
  }

  lemma TurnChainGrows(tasks: Graph, states: States, order: seq<TaskId>, t: TaskId, d: TaskId)
    requires Distinct(order) && order != [] && order[|order| - 1] == t && SkipLink(tasks, states, t, d)
    requires (d in states && Skipped(states[d])) || SkipsInTurn(tasks, states, order[..|order| - 1], d)
    ensures SkipsInTurn(tasks, states, order, t)
  {
    hide SkipLink;
    var n := |order| - 1;
    if d in states && Skipped(states[d]) {
      assert TurnChain(tasks, states, order, [t, d]);
    } else {
      var p :| TurnChain(tasks, states, order[..n], p) && p[0] == d;
      TurnInPrefix(tasks, states, order, n, p);
      var q := [t] + p;
      forall i | 0 <= i < |q| - 1 ensures SkipLink(tasks, states, q[i], q[i + 1]) {
        assert i > 0 ==> q[i] == p[i - 1] && q[i + 1] == p[i];
      }
      forall i | 0 <= i < |q| - 2 ensures Before(order, q[i + 1], q[i]) {
        if i == 0 {
          var k :| 0 <= k < n && order[..n][k] == d;
          assert order[k] == d && order[n] == t;
        } else {
          assert Before(order, p[i - 1 + 1], p[i - 1]);
        }
      }
      assert TurnChain(tasks, states, order, q);
    }
  }

  lemma TurnTail(tasks: Graph, states: States, order: seq<TaskId>, p: seq<TaskId>)
    requires Distinct(order) && order != [] && TurnChain(tasks, states, order, p) && p[0] == order[|order| - 1]
    ensures SkipLink(tasks, states, p[0], p[1])
    ensures (p[1] in states && Skipped(states[p[1]])) || SkipsInTurn(tasks, states, order[..|order| - 1], p[1])
  {
    hide SkipLink;
    var n := |order| - 1;
    assert SkipLink(tasks, states, p[0], p[0 + 1]);
    if |p| > 2 {
      var q := p[1..];
      forall i | 0 <= i < |q| - 1 ensures SkipLink(tasks, states, q[i], q[i + 1]) {
        assert SkipLink(tasks, states, p[i + 1], p[i + 1 + 1]);
      }
      forall i | 0 <= i < |q| - 2 ensures Before(order, q[i + 1], q[i]) {
        assert Before(order, p[i + 1 + 1], p[i + 1]);
      }
      assert Before(order, p[0 + 1], p[0]);
      var i, j :| 0 <= i < j < |order| && order[i] == p[1] && order[j] == p[0];
      assert j == n && order[..n][i] == p[1];
      assert TurnChain(tasks, states, order, q);
      TurnInPrefix(tasks, states, order, n, q);
    }
  }

  /** Where one pass takes a task. */
  ghost function PassOutcome(tasks: Graph, states: States, order: seq<TaskId>, t: TaskId): TaskState
    requires t in states
  {
    if t !in order || t !in tasks || !Waiting(states[t]) then states[t]
    else if SkipsInTurn(tasks, states, order, t) then SKIPPED_REDUNDANT
    else if Failing(tasks[t], states) then BLOCKED
    else if Supplied(tasks[t], states) then READY
    else states[t]
  }

  lemma LastSkippedInTurn(tasks: Graph, states: States, order: seq<TaskId>, before: States)
    requires Distinct(order) && order != [] && Reached(tasks, states, before)
    requires order[|order| - 1] in tasks && order[|order| - 1] in states && Waiting(states[order[|order| - 1]])
    requires forall d :: d in states ==> before[d] == PassOutcome(tasks, states, order[..|order| - 1], d)
    requires SkippedBy(tasks[order[|order| - 1]], before)
    ensures SkipsInTurn(tasks, states, order, order[|order| - 1])
  {
    hide Reached, SkipsInTurn, Failing, Supplied;
    var t := order[|order| - 1];
    ReachedLooks(tasks, states, before, tasks[t]);
    var k :| 0 <= k < |tasks[t]| && SkipsAt(tasks[t], before, k);
    SameKeys(tasks, states, before);
    assert SkipLink(tasks, states, t, tasks[t][k]);
    TurnChainGrows(tasks, states, order, t, tasks[t][k]);
  }

  lemma SameKeys(tasks: Graph, states: States, now: States)
    requires Reached(tasks, states, now)
    ensures now.Keys == states.Keys
  {
  }

  lemma InTurnIsSkipped(tasks: Graph, states: States, order: seq<TaskId>, before: States)
    requires Distinct(order) && order != [] && Reached(tasks, states, before)
    requires order[|order| - 1] in tasks && order[|order| - 1] in states && Waiting(states[order[|order| - 1]])
    requires forall d :: d in states ==> before[d] == PassOutcome(tasks, states, order[..|order| - 1], d)
    requires SkipsInTurn(tasks, states, order, order[|order| - 1])
    ensures SkippedBy(tasks[order[|order| - 1]], before)
  {
    hide Reached, PassOutcome, Failing, Supplied;
    var n := |order| - 1;
    var t := order[n];
    ReachedLooks(tasks, states, before, tasks[t]);
    SameKeys(tasks, states, before);
    var p :| TurnChain(tasks, states, order, p) && p[0] == t;
    TurnTail(tasks, states, order, p);
    SkipsAreSeen(tasks, states, order[..n], p[1]);
    var k :| 0 <= k < |tasks[t]| && tasks[t][k] == p[1] && ClearBefore(tasks[t], states, k);
    assert SkipsAt(tasks[t], before, k);
  }

  /** What the last step of a pass sees of its dependencies' skipping. */
  lemma LastIsSkippedIff(tasks: Graph, states: States, order: seq<TaskId>)
    requires Distinct(order) && order != []
    requires order[|order| - 1] in tasks && order[|order| - 1] in states && Waiting(states[order[|order| - 1]])
    requires forall d :: d in states ==>
      After(tasks, states, order[..|order| - 1]).states[d] == PassOutcome(tasks, states, order[..|order| - 1], d)
    ensures SkippedBy(tasks[order[|order| - 1]], After(tasks, states, order[..|order| - 1]).states)
      <==> SkipsInTurn(tasks, states, order, order[|order| - 1])
  {
    hide After, SkippedBy, SkipsInTurn, PassOutcome, Reached;
    var n := |order| - 1;
    var t, before := order[n], After(tasks, states, order[..n]).states;
    NothingSkippedByNoStep(tasks, states);
    PassReached(tasks, states, states, order[..n]);
    if SkippedBy(tasks[t], before) {
      LastSkippedInTurn(tasks, states, order, before);
    }
    if SkipsInTurn(tasks, states, order, t) {
      InTurnIsSkipped(tasks, states, order, before);
    }
  }

  lemma SkipsAreSeen(tasks: Graph, states: States, order: seq<TaskId>, d: TaskId)
    requires (d in states && Skipped(states[d])) || SkipsInTurn(tasks, states, order, d)
    ensures d in states && Skipped(PassOutcome(tasks, states, order, d))
  {
    if SkipsInTurn(tasks, states, order, d) {
      var p :| TurnChain(tasks, states, order, p) && p[0] == d;
      assert SkipLink(tasks, states, p[0], p[0 + 1]);
    }
  }

  /** The states after a pass, told from the states before and the order alone. */
  lemma {:induction false} PassIsOutcome(tasks: Graph, states: States, order: seq<TaskId>, t: TaskId)
    requires Distinct(order) && t in states
    ensures After(tasks, states, order).states[t] == PassOutcome(tasks, states, order, t)
    decreases |order|
  {
    if order != [] {
      var n := |order| - 1;
      var before := After(tasks, states, order[..n]).states;
      forall d | d in states ensures before[d] == PassOutcome(tasks, states, order[..n], d) {
        PassIsOutcome(tasks, states, order[..n], d);
      }
      assert t in order <==> t in order[..n] || t == order[n];
      MovedNext(tasks, states, order);
      if t == order[n] {
        LastOutcome(tasks, states, order);
      } else {
        forall p ensures p != [] && p[0] == t ==>
          (TurnChain(tasks, states, order[..n], p) <==> TurnChain(tasks, states, order, p)) {
          TurnInPrefix(tasks, states, order, n, p);
        }
      }
    }
  }

  lemma LastOutcome(tasks: Graph, states: States, order: seq<TaskId>)
    requires Distinct(order) && order != [] && order[|order| - 1] in states
    requires forall d :: d in states ==>
      After(tasks, states, order[..|order| - 1]).states[d] == PassOutcome(tasks, states, order[..|order| - 1], d)
    ensures After(tasks, states, order).states[order[|order| - 1]]
      == PassOutcome(tasks, states, order, order[|order| - 1])
  {
    var n := |order| - 1;
    var t, before := order[n], After(tasks, states, order[..n]).states;
    assert t !in order[..n];
    MovedNext(tasks, states, order);
    if t in tasks && Waiting(states[t]) {
      LastIsSkippedIff(tasks, states, order);
      NothingSkippedByNoStep(tasks, states);
      PassReached(tasks, states, states, order[..n]);
      hide After, Scanned;
      ReachedLooks(tasks, states, before, tasks[t]);
      hide Failing, Supplied, SkippedBy, SkipsInTurn;
      NextStateIs(tasks[t], before, before[t]);
    }
  }
}

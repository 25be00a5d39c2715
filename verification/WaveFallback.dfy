/** The tasks that no round of the wave layering resolves: those that lead to a cycle or a missing id. */
module WaveFallback {
  import opened Pigeonhole
  import opened Tasks
  import opened WaveChains
  import opened Waves

  /** A stuck task depends on a missing id or on a stuck task. */
  lemma StuckDependency(tasks: seq<Task>, t: Task) returns (d: TaskId)
    requires Stuck(tasks, t)
    ensures d in t.dependencies
    ensures forall u :: u in tasks && u.id == d ==> Stuck(tasks, u)
  {
    var n := DryRound(tasks);
    d :| d in t.dependencies && d !in Resolved(tasks, n);
    forall u | u in tasks && u.id == d ensures Stuck(tasks, u) {
      forall m: nat ensures !IsReady(u, Resolved(tasks, m)) {
        if m <= n {
          ResolvedGrows(tasks, m, n);
        } else {
          ResolvedStays(tasks, n, m);
        }
        ReadyIsResolved(tasks, u, n);
      }
    }
  }

  /** From a stuck task there is a chain of any length, unless one ends at a missing id first. */
  lemma {:induction false} StuckChain(tasks: seq<Task>, t: Task, n: nat) returns (p: seq<Task>)
    requires t in tasks && Stuck(tasks, t)
    ensures Chain(tasks, p) && p[0] == t
    ensures |p| == n + 1 || DependsOnMissing(tasks, p[|p| - 1])
    decreases n
  {
    p := [t];
    if n > 0 {
      var d := StuckDependency(tasks, t);
      if u :| u in tasks && u.id == d {
        var q := StuckChain(tasks, u, n - 1);
        p := [t] + q;
      }
    }
  }

  lemma {:induction false} StuckPropagates(tasks: seq<Task>, p: seq<Task>)
    requires DistinctIds(tasks) && Chain(tasks, p) && Stuck(tasks, p[|p| - 1])
    ensures Stuck(tasks, p[0])
  {
    forall n: nat ensures !IsReady(p[0], Resolved(tasks, n)) {
      if IsReady(p[0], Resolved(tasks, n)) {
        ChainDescends(tasks, p, n);
      }
    }
  }

  lemma CycleIsStuck(tasks: seq<Task>, p: seq<Task>, i: nat, j: nat)
    requires DistinctIds(tasks) && Chain(tasks, p) && i < j < |p| && p[i] == p[j]
    ensures Stuck(tasks, p[i])
  {
    hide Resolved;
    if !Stuck(tasks, p[i]) {
      var n := FirstRound(tasks, p[i]);
      ChainParts(tasks, p, j);
      ChainParts(tasks, p[..j + 1], i);
      var loop := p[..j + 1][i..];
      assert loop[0] == p[i] && loop[|loop| - 1] == p[i];
      ChainDescends(tasks, loop, n);
      PlacedReady(tasks, p[i], n, n + 1 - |loop|);
    }
  }

  lemma StuckReaches(tasks: seq<Task>, t: Task)
    requires DistinctIds(tasks) && t in tasks && Stuck(tasks, t)
    ensures ReachesMissing(tasks, t) || ReachesCycle(tasks, t)
  {
    var p := StuckChain(tasks, t, |tasks|);
    if !DependsOnMissing(tasks, p[|p| - 1]) {
      forall x | x in p ensures x in tasks {
        var i :| 0 <= i < |p| && p[i] == x;
        ChainParts(tasks, p, i);
      }
      var i, j := Repeats(p, tasks);
    }
  }

  lemma MissingIsStuck(tasks: seq<Task>, t: Task)
    requires DistinctIds(tasks) && t in tasks && ReachesMissing(tasks, t)
    ensures Stuck(tasks, t)
  {
    var p :| Chain(tasks, p) && p[0] == t && DependsOnMissing(tasks, p[|p| - 1]);
    forall n: nat ensures !IsReady(p[|p| - 1], Resolved(tasks, n)) {
      ResolvedAreIds(tasks, n);
    }
    StuckPropagates(tasks, p);
  }

  lemma ReachedCycleIsStuck(tasks: seq<Task>, t: Task)
    requires DistinctIds(tasks) && t in tasks && ReachesCycle(tasks, t)
    ensures Stuck(tasks, t)
  {
    var p :| Chain(tasks, p) && p[0] == t && !Distinct(p);
    var i, j :| 0 <= i < j < |p| && p[i] == p[j];
    CycleIsStuck(tasks, p, i, j);
    ChainParts(tasks, p, i);
    StuckPropagates(tasks, p[..i + 1]);
  }

  /** The tasks left over are exactly those whose dependencies lead to a cycle or a missing id. */
  lemma StuckIffCycleOrMissing(tasks: seq<Task>, t: Task)
    requires DistinctIds(tasks) && t in tasks
    ensures Stuck(tasks, t) <==> ReachesMissing(tasks, t) || ReachesCycle(tasks, t)
  {
    hide Stuck, ReachesMissing, ReachesCycle, DistinctIds;
    if Stuck(tasks, t) {
      StuckReaches(tasks, t);
    }
    if ReachesMissing(tasks, t) {
      MissingIsStuck(tasks, t);
    }
    if ReachesCycle(tasks, t) {
      ReachedCycleIsStuck(tasks, t);
    }
  }
}

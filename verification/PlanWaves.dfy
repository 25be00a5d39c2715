/**
 The plan's cycle check and the waves shown for the plan, together: a plan that passes the check
 can only have tasks left over because of missing ids.
 */
module PlanWaves {
  import opened Pigeonhole
  import opened TaskGraph
  import opened Tasks
  import WaveFallback
  import Waves

  /** The graph and the task list describe the same plan. */
  ghost predicate SamePlan(ts: seq<Waves.Task>, tasks: Graph) {
    && (forall t :: t in ts ==> t.id in tasks && tasks[t.id] == t.dependencies)
    && forall id :: id in tasks ==> exists t :: t in ts && t.id == id
  }

  ghost function Named(ts: seq<Waves.Task>, tasks: Graph, id: TaskId): (t: Waves.Task)
    requires SamePlan(ts, tasks) && id in tasks
    ensures t in ts && t.id == id
  {
    var t :| t in ts && t.id == id;
    t
  }

  lemma {:induction false} ChainLinks(ts: seq<Waves.Task>, p: seq<Waves.Task>)
    requires Waves.Chain(ts, p)
    ensures forall k :: 0 <= k < |p| ==> p[k] in ts
    ensures forall k :: 0 <= k < |p| - 1 ==> p[k + 1].id in p[k].dependencies
  {
    if |p| > 1 {
      ChainLinks(ts, p[1..]);
      forall k | 0 <= k < |p| ensures p[k] in ts && (k < |p| - 1 ==> p[k + 1].id in p[k].dependencies) {
        assert k > 0 ==> p[k] == p[1..][k - 1];
        assert 0 < k < |p| - 1 ==> p[k + 1] == p[1..][k];
      }
    }
  }

  lemma {:induction false} LinksChain(ts: seq<Waves.Task>, p: seq<Waves.Task>)
    requires p != [] && forall k :: 0 <= k < |p| ==> p[k] in ts
    requires forall k :: 0 <= k < |p| - 1 ==> p[k + 1].id in p[k].dependencies
    ensures Waves.Chain(ts, p)
    decreases |p|
  {
    if |p| > 1 {
      var rest := p[1..];
      forall k | 0 <= k < |rest| - 1 ensures rest[k + 1].id in rest[k].dependencies {
        assert p[k + 1 + 1].id in p[k + 1].dependencies;
      }
      LinksChain(ts, rest);
    }
  }

  lemma LoopIsCycle(ts: seq<Waves.Task>, tasks: Graph, p: seq<Waves.Task>, i: nat, j: nat)
    requires SamePlan(ts, tasks) && Waves.Chain(ts, p) && i < j < |p| && p[i] == p[j]
    ensures Cyclic(tasks)
  {
    hide Waves.Chain;
    ChainLinks(ts, p);
    var q := seq(j - i + 1, k requires 0 <= k < j - i + 1 => p[i + k].id);
    forall k | 0 <= k < |q| - 1 ensures Edge(tasks, q[k], q[k + 1]) {
      assert p[i + k] in ts && p[i + k + 1] in ts && p[i + k + 1].id in p[i + k].dependencies;
    }
    assert p[i] in ts;
    assert Cycle(tasks, q);
  }

  lemma CycleIsLoop(ts: seq<Waves.Task>, tasks: Graph, q: seq<TaskId>)
    requires SamePlan(ts, tasks) && Cycle(tasks, q)
    ensures exists t :: t in ts && Waves.ReachesCycle(ts, t)
  {
    forall k | 0 <= k < |q| ensures q[k] in tasks {
      assert k > 0 ==> Edge(tasks, q[k - 1], q[k - 1 + 1]);
    }
    var p := seq(|q|, k requires 0 <= k < |q| => Named(ts, tasks, q[k]));
    forall k | 0 <= k < |p| - 1 ensures p[k + 1].id in p[k].dependencies {
      assert Edge(tasks, q[k], q[k + 1]);
    }
    LinksChain(ts, p);
    assert p[0] == p[|p| - 1];
    assert Waves.ReachesCycle(ts, p[0]);
  }

  /** The check finds a cycle exactly when some task of the plan leads into one. */
  lemma CyclicIffReached(ts: seq<Waves.Task>, tasks: Graph)
    requires SamePlan(ts, tasks)
    ensures Cyclic(tasks) <==> exists t :: t in ts && Waves.ReachesCycle(ts, t)
  {
    if Cyclic(tasks) {
      var q :| Cycle(tasks, q);
      CycleIsLoop(ts, tasks, q);
    }
    if t :| t in ts && Waves.ReachesCycle(ts, t) {
      var p :| Waves.Chain(ts, p) && p[0] == t && !Distinct(p);
      var i, j :| 0 <= i < j < |p| && p[i] == p[j];
      LoopIsCycle(ts, tasks, p, i, j);
    }
  }

  /** In a plan that passed the check, the tasks of the fallback wave are those that lead to a missing id. */
  lemma CheckedPlanIsStuckOnlyByMissing(ts: seq<Waves.Task>, tasks: Graph, t: Waves.Task)
    requires SamePlan(ts, tasks) && Waves.DistinctIds(ts) && !Cyclic(tasks) && t in ts
    ensures Waves.Stuck(ts, t) <==> Waves.ReachesMissing(ts, t)
  {
    CyclicIffReached(ts, tasks);
    WaveFallback.StuckIffCycleOrMissing(ts, t);
  }
}

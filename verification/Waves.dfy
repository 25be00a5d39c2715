/**
 The dependency waves shown for a session: repeatedly take the tasks whose dependencies are
 all resolved; when none is left to take, put everything that remains in one last wave.

 The reference notion is `Resolved(tasks, n)`, the ids resolved after `n` rounds, which does
 not mention the loop. Waves are compared with dependency chains and with cycles and missing ids.
 */
module Waves {
  import opened Pigeonhole
  import opened Tasks

  datatype Task = Task(id: TaskId, dependencies: seq<TaskId>)

  predicate IsReady(t: Task, resolved: set<TaskId>) {
    forall d :: d in t.dependencies ==> d in resolved
  }

  function Ids(ts: seq<Task>): seq<TaskId> {
    if ts == [] then [] else [ts[0].id] + Ids(ts[1..])
  }

  ghost predicate OwnsId(ts: seq<Task>, t: Task) {
    forall u :: u in ts && u.id == t.id ==> u == t
  }

  ghost predicate DistinctIds(ts: seq<Task>) {
    forall t {:trigger OwnsId(ts, t)} :: t in ts ==> OwnsId(ts, t)
  }

  // ---------- The reference notion ----------

  ghost function Resolved(tasks: seq<Task>, n: nat): set<TaskId> {
    if n == 0 then {}
    else Resolved(tasks, n - 1) + ReadyIds(tasks, Resolved(tasks, n - 1))
  }

  ghost function ReadyIds(tasks: seq<Task>, resolved: set<TaskId>): set<TaskId> {
    set t | t in tasks && IsReady(t, resolved) :: t.id
  }

  /** `t` becomes ready in round `n` and not before. */
  ghost predicate Placed(tasks: seq<Task>, t: Task, n: nat) {
    IsReady(t, Resolved(tasks, n)) && (n > 0 ==> !IsReady(t, Resolved(tasks, n - 1)))
  }

  ghost predicate Stuck(tasks: seq<Task>, t: Task) {
    forall n: nat :: !IsReady(t, Resolved(tasks, n))
  }

  /** A set of ids that contains every task whose dependencies it contains. */
  ghost predicate Closed(tasks: seq<Task>, s: set<TaskId>) {
    forall t :: t in tasks && IsReady(t, s) ==> t.id in s
  }

  /** Each task of `p` depends on the next one. */
  ghost predicate Chain(tasks: seq<Task>, p: seq<Task>) {
    && p != []
    && p[0] in tasks
    && (|p| > 1 ==> p[1].id in p[0].dependencies && Chain(tasks, p[1..]))
  }

  ghost predicate DependsOnMissing(tasks: seq<Task>, t: Task) {
    exists d :: d in t.dependencies && forall u :: u in tasks ==> u.id != d
  }

  /** A dependency chain from `t` ends at a missing id. */
  ghost predicate ReachesMissing(tasks: seq<Task>, t: Task) {
    exists p :: Chain(tasks, p) && p[0] == t && DependsOnMissing(tasks, p[|p| - 1])
  }

  /** A dependency chain from `t` comes back to a task it has visited. */
  ghost predicate ReachesCycle(tasks: seq<Task>, t: Task) {
    exists p :: Chain(tasks, p) && p[0] == t && !Distinct(p)
  }

  // ---------- Facts about rounds ----------

  lemma {:induction false} ResolvedGrows(tasks: seq<Task>, m: nat, n: nat)
    requires m <= n
    ensures Resolved(tasks, m) <= Resolved(tasks, n)
    decreases n
  {
    if m < n {
      ResolvedGrows(tasks, m, n - 1);
    }
  }

  lemma ReadyIsResolved(tasks: seq<Task>, t: Task, n: nat)
    requires t in tasks
    ensures IsReady(t, Resolved(tasks, n)) ==> t.id in Resolved(tasks, n + 1)
  {
  }

  lemma {:induction false} ResolvedStays(tasks: seq<Task>, m: nat, n: nat)
    requires m <= n && Resolved(tasks, m) == Resolved(tasks, m + 1)
    ensures Resolved(tasks, n) == Resolved(tasks, m)
    decreases n
  {
    hide ReadyIds;
    if m < n {
      ResolvedStays(tasks, m, n - 1);
    }
  }

  lemma {:induction false} ResolvedAreIds(tasks: seq<Task>, n: nat)
    ensures Resolved(tasks, n) <= AllIds(tasks)
  {
    if n > 0 {
      ResolvedAreIds(tasks, n - 1);
    }
  }

  function AllIds(tasks: seq<Task>): set<TaskId> {
    set t | t in tasks :: t.id
  }

  lemma RoundSizes(tasks: seq<Task>, m: nat)
    ensures |Resolved(tasks, m)| <= |AllIds(tasks)|
    ensures Resolved(tasks, m) != Resolved(tasks, m + 1) ==> |Resolved(tasks, m)| < |Resolved(tasks, m + 1)|
  {
    ResolvedAreIds(tasks, m);
    SubsetSize(Resolved(tasks, m), AllIds(tasks));
    ResolvedGrows(tasks, m, m + 1);
    if Resolved(tasks, m) != Resolved(tasks, m + 1) {
      StrictSubsetSize(Resolved(tasks, m), Resolved(tasks, m + 1));
    }
  }

  /** Rounds run dry: from any round that has kept resolving something, a later one resolves nothing. */
  lemma {:induction false} DryRoundFrom(tasks: seq<Task>, m: nat, left: nat) returns (n: nat)
    requires |AllIds(tasks)| - |Resolved(tasks, m)| <= left
    ensures Resolved(tasks, n) == Resolved(tasks, n + 1)
    decreases left
  {
    hide Resolved;
    RoundSizes(tasks, m);
    RoundSizes(tasks, m + 1);
    if Resolved(tasks, m) == Resolved(tasks, m + 1) {
      n := m;
    } else {
      n := DryRoundFrom(tasks, m + 1, left - 1);
    }
  }

  lemma DryRound(tasks: seq<Task>) returns (n: nat)
    ensures Resolved(tasks, n) == Resolved(tasks, n + 1)
  {
    n := DryRoundFrom(tasks, 0, |AllIds(tasks)|);
  }

  lemma {:induction false} ResolvedIsLeast(tasks: seq<Task>, s: set<TaskId>, n: nat)
    requires Closed(tasks, s)
    ensures Resolved(tasks, n) <= s
  {
    if n > 0 {
      ResolvedIsLeast(tasks, s, n - 1);
    }
  }

  /** Being stuck is being outside the least closed set, stated without the rounds. */
  lemma StuckIffOutsideLeastClosedSet(tasks: seq<Task>, t: Task)
    ensures Stuck(tasks, t) <==> exists s :: Closed(tasks, s) && !IsReady(t, s)
  {
    if Stuck(tasks, t) {
      var n := DryRound(tasks);
      assert Closed(tasks, Resolved(tasks, n)) && !IsReady(t, Resolved(tasks, n));
    }
    if s :| Closed(tasks, s) && !IsReady(t, s) {
      forall n: nat ensures !IsReady(t, Resolved(tasks, n)) {
        ResolvedIsLeast(tasks, s, n);
      }
    }
  }
}

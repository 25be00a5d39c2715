/**
 The task graph of a plan: the depth-first search for dependency cycles, the topological sort,
 and the search for everything that depends on a task.

 `tasks` gives each task its dependencies, and `order` lists the tasks as the dictionary does.
 A dependency on a name that no task has is no edge.
 */
module TaskGraph {
  import opened Pigeonhole
  import opened Tasks
  import opened Wrappers

  type Graph = map<TaskId, seq<TaskId>>

  predicate Edge(tasks: Graph, a: TaskId, b: TaskId) {
    a in tasks && b in tasks && b in tasks[a]
  }

  /** Each task of `p` depends on the next. */
  ghost predicate Path(tasks: Graph, p: seq<TaskId>) {
    && p != [] && p[0] in tasks
    && forall i :: 0 <= i < |p| - 1 ==> Edge(tasks, p[i], p[i + 1])
  }

  ghost predicate Cycle(tasks: Graph, p: seq<TaskId>) {
    |p| > 1 && Path(tasks, p) && p[0] == p[|p| - 1]
  }

  ghost predicate Cyclic(tasks: Graph) {
    exists p :: Cycle(tasks, p)
  }

  ghost predicate Lists(order: seq<TaskId>, tasks: Graph) {
    Distinct(order) && forall t :: t in order <==> t in tasks
  }

  // ---------- Orders that respect dependencies ----------

  /** Every dependency of `a` that is a task is in `before`. */
  ghost predicate Covered(tasks: Graph, a: TaskId, before: seq<TaskId>) {
    forall b :: Edge(tasks, a, b) ==> b in before
  }

  /** Distinct tasks, each after all the tasks it depends on. */
  ghost predicate Respects(tasks: Graph, done: seq<TaskId>) {
    && Distinct(done)
    && (forall i :: 0 <= i < |done| ==> done[i] in tasks)
    && forall i :: 0 <= i < |done| ==> Covered(tasks, done[i], done[..i])
  }

  lemma RespectsNext(tasks: Graph, done: seq<TaskId>, a: TaskId)
    requires Respects(tasks, done) && a in tasks && a !in done && Covered(tasks, a, done)
    ensures Respects(tasks, done + [a])
  {
    var all := done + [a];
    assert all[..|done|] == done;
    forall i | 0 <= i < |all| ensures Covered(tasks, all[i], all[..i]) {
      assert i < |done| ==> all[..i] == done[..i];
    }
  }

  /** Along a path from a listed task the positions go down. */
  lemma {:induction false} PathDescends(tasks: Graph, done: seq<TaskId>, p: seq<TaskId>, i: nat)
    requires Respects(tasks, done) && Path(tasks, p) && |p| > 1 && i < |done| && p[0] == done[i]
    ensures p[|p| - 1] in done[..i]
    decreases |p|
  {
    assert Edge(tasks, p[0], p[1]) && Covered(tasks, done[i], done[..i]);
    var j :| 0 <= j < i && done[..i][j] == p[1];
    if |p| > 2 {
      var rest := p[1..];
      forall k | 0 <= k < |rest| - 1 ensures Edge(tasks, rest[k], rest[k + 1]) {
        assert Edge(tasks, p[k + 1], p[k + 2]);
      }
      PathDescends(tasks, done, rest, j);
      assert done[..j] <= done[..i];
    }
  }

  lemma PathDoesNotReturn(tasks: Graph, done: seq<TaskId>, p: seq<TaskId>, i: nat)
    requires Respects(tasks, done) && Path(tasks, p) && |p| > 1 && i < |done| && p[0] == done[i]
    ensures p[|p| - 1] != p[0]
  {
    PathDescends(tasks, done, p, i);
    var j :| 0 <= j < i && done[..i][j] == p[|p| - 1];
    assert done[j] != done[i];
  }

  /** A graph whose tasks can all be listed after their dependencies has no cycle. */
  lemma ListedIsAcyclic(tasks: Graph, done: seq<TaskId>)
    requires Respects(tasks, done) && forall t :: t in tasks ==> t in done
    ensures !Cyclic(tasks)
  {
    if p :| Cycle(tasks, p) {
      assert p[0] in done;
      var i :| 0 <= i < |done| && done[i] == p[0];
      PathDoesNotReturn(tasks, done, p, i);
    }
  }

  /** From a task that is not listed yet, either a task that can be listed next, or a path of `n` steps. */
  lemma {:induction false} FollowUnlisted(tasks: Graph, done: seq<TaskId>, a: TaskId, n: nat)
    returns (next: Option<TaskId>, p: seq<TaskId>)
    requires a in tasks && a !in done
    ensures next.Some? ==> next.value in tasks && next.value !in done && Covered(tasks, next.value, done)
    ensures next.None? ==> |p| == n + 1 && p[0] == a && Path(tasks, p)
    decreases n
  {
    if Covered(tasks, a, done) {
      return Some(a), [];
    }
    if n == 0 {
      return None, [a];
    }
    var d :| Edge(tasks, a, d) && d !in done;
    var rest;
    next, rest := FollowUnlisted(tasks, done, d, n - 1);
    p := [a] + rest;
    if next.None? {
      forall i | 0 <= i < |p| - 1 ensures Edge(tasks, p[i], p[i + 1]) {
        assert i > 0 ==> p[i] == rest[i - 1] && p[i + 1] == rest[i];
      }
    }
  }

  lemma LongPathIsCyclic(tasks: Graph, all: seq<TaskId>, p: seq<TaskId>)
    requires Lists(all, tasks) && Path(tasks, p) && |p| > |all|
    ensures Cyclic(tasks)
  {
    forall x | x in p ensures x in all {
      var i :| 0 <= i < |p| && p[i] == x;
      assert i > 0 ==> Edge(tasks, p[i - 1], p[i - 1 + 1]);
    }
    var i, j := Repeats(p, all);
    var q := p[i..j + 1];
    forall k | 0 <= k < |q| - 1 ensures Edge(tasks, q[k], q[k + 1]) {
      assert Edge(tasks, p[i + k], p[i + k + 1]);
    }
    assert p[i] in tasks;
    assert Cycle(tasks, q);
  }

  /** The other way round: the tasks of a graph without a cycle can be listed after their dependencies. */
  lemma {:induction false} AcyclicCanBeListed(tasks: Graph, all: seq<TaskId>, done: seq<TaskId>)
      returns (order: seq<TaskId>)
    requires Lists(all, tasks) && !Cyclic(tasks) && Respects(tasks, done)
    ensures Lists(order, tasks) && Respects(tasks, order)
    decreases |all| - |done|
  {
    if forall a :: a in tasks ==> a in done {
      return done;
    }
    var a :| a in tasks && a !in done;
    var next, p := FollowUnlisted(tasks, done, a, |all|);
    if next.None? {
      LongPathIsCyclic(tasks, all, p);
    } else {
      RespectsNext(tasks, done, next.value);
      var longer := done + [next.value];
      DistinctSize(longer);
      DistinctSize(all);
      SubsetSize(Members(longer), Members(all));
      order := AcyclicCanBeListed(tasks, all, longer);
    }
  }

  // ---------- The search for cycles ----------

  datatype Colour = Grey | Black

  /** The marks of the search: grey on the stack, black when finished. */
  ghost predicate Marked(tasks: Graph, colours: map<TaskId, Colour>, stack: seq<TaskId>, done: seq<TaskId>) {
    && (forall t :: t in colours ==> t in tasks)
    && (forall t :: t in stack <==> t in colours && colours[t] == Grey)
    && (forall t :: t in done <==> t in colours && colours[t] == Black)
    && Respects(tasks, done)
    && (stack != [] ==> Path(tasks, stack))
  }

  lemma PathNext(tasks: Graph, p: seq<TaskId>, a: TaskId)
    requires a in tasks && (p != [] ==> Path(tasks, p) && Edge(tasks, p[|p| - 1], a))
    ensures Path(tasks, p + [a])
  {
    var q := p + [a];
    forall i | 0 <= i < |q| - 1 ensures Edge(tasks, q[i], q[i + 1]) {
      assert q[i] == p[i];
      assert i < |p| - 1 ==> q[i + 1] == p[i + 1];
    }
  }

  /** A dependency on a task of the stack closes a cycle. */
  lemma BackEdgeIsCycle(tasks: Graph, stack: seq<TaskId>, a: TaskId)
    requires stack != [] && Path(tasks, stack) && Edge(tasks, stack[|stack| - 1], a) && a in stack
    ensures Cyclic(tasks)
  {
    var i :| 0 <= i < |stack| && stack[i] == a;
    var p := stack[i..];
    assert Path(tasks, p) by {
      forall k | 0 <= k < |p| - 1 ensures Edge(tasks, p[k], p[k + 1]) {
        assert Edge(tasks, stack[i + k], stack[i + k + 1]);
      }
    }
    PathNext(tasks, p, a);
    assert Cycle(tasks, p + [a]);
  }

  lemma MarkGrey(tasks: Graph, colours: map<TaskId, Colour>, stack: seq<TaskId>, done: seq<TaskId>, a: TaskId)
    requires Marked(tasks, colours, stack, done) && a in tasks && a !in colours
    requires stack != [] ==> Edge(tasks, stack[|stack| - 1], a)
    ensures Marked(tasks, colours[a := Grey], stack + [a], done)
  {
    PathNext(tasks, stack, a);
  }

  lemma MarkBlack(tasks: Graph, colours: map<TaskId, Colour>, stack: seq<TaskId>, done: seq<TaskId>, a: TaskId)
    requires Marked(tasks, colours, stack + [a], done) && a !in stack && Covered(tasks, a, done)
    ensures Marked(tasks, colours[a := Black], stack, done + [a])
  {
    var grown := stack + [a];
    assert a in grown && a !in done && a in tasks;
    RespectsNext(tasks, done, a);
    forall t ensures t in stack <==> t in grown && t != a {
    }
    if stack != [] {
      assert forall i :: 0 <= i < |stack| ==> stack[i] == grown[i];
      forall i | 0 <= i < |stack| - 1 ensures Edge(tasks, stack[i], stack[i + 1]) {
        assert Edge(tasks, grown[i], grown[i + 1]);
      }
    }
  }

  /** Searches from one unmarked task; without a finding the task and all it reaches are black. */
  method HasCycle(
      tasks: Graph, colours: map<TaskId, Colour>, node: TaskId, ghost stack: seq<TaskId>, ghost done: seq<TaskId>)
    returns (found: bool, colours': map<TaskId, Colour>, ghost done': seq<TaskId>)
    requires Marked(tasks, colours, stack, done) && node in tasks && node !in colours
    requires stack != [] ==> Edge(tasks, stack[|stack| - 1], node)
    ensures found ==> Cyclic(tasks)
    ensures !found ==> Marked(tasks, colours', stack, done') && node in done'
    ensures !found ==> colours.Keys <= colours'.Keys && forall t :: t in done ==> t in done'
    decreases tasks.Keys - colours.Keys
  {
    hide Cyclic, Path, Respects, Edge;
    MarkGrey(tasks, colours, stack, done, node);
    assert node !in stack;
    colours', done', found := colours[node := Grey], done, false;
    ghost var grown := stack + [node];
    assert grown[|grown| - 1] == node;
    var dependencies := tasks[node];
    for k := 0 to |dependencies|
      invariant !found && Marked(tasks, colours', grown, done')
      invariant colours.Keys + {node} <= colours'.Keys && forall t :: t in done ==> t in done'
      invariant forall j :: 0 <= j < k && dependencies[j] in tasks ==> dependencies[j] in done'
    {
      var dependency := dependencies[k];
      if dependency in tasks {
        IsEdge(tasks, node, k);
        if dependency in colours' && colours'[dependency] == Grey {
          BackEdgeIsCycle(tasks, grown, dependency);
          found := true;
          return;
        }
        if dependency !in colours' {
          assert node in colours'.Keys && node !in colours.Keys;
          found, colours', done' := HasCycle(tasks, colours', dependency, grown, done');
          if found {
            return;
          }
        }
      }
    }
    AllCovered(tasks, node, done');
    MarkBlack(tasks, colours', stack, done', node);
    colours', done' := colours'[node := Black], done' + [node];
  }

  lemma IsEdge(tasks: Graph, a: TaskId, k: nat)
    requires a in tasks && k < |tasks[a]| && tasks[a][k] in tasks
    ensures Edge(tasks, a, tasks[a][k])
  {
  }

  lemma AllCovered(tasks: Graph, a: TaskId, done: seq<TaskId>)
    requires a in tasks
    requires forall j :: 0 <= j < |tasks[a]| && tasks[a][j] in tasks ==> tasks[a][j] in done
    ensures Covered(tasks, a, done)
  {
  }

  /** The search reports a cycle exactly when there is one. */
  method DetectCycles(tasks: Graph, order: seq<TaskId>) returns (cyclic: bool)
    requires Lists(order, tasks)
    ensures cyclic <==> Cyclic(tasks)
  {
    var colours: map<TaskId, Colour> := map[];
    ghost var done: seq<TaskId> := [];
    for i := 0 to |order|
      invariant Marked(tasks, colours, [], done)
      invariant forall j :: 0 <= j < i ==> order[j] in done
    {
      assert order[i] in order;
      if order[i] !in colours {
        cyclic, colours, done := HasCycle(tasks, colours, order[i], [], done);
        if cyclic {
          return;
        }
      }
    }
    ListedIsAcyclic(tasks, done);
    cyclic := false;
  }

  // ---------- The topological sort ----------

  /** Visited tasks are those finished and those on the stack. */
  ghost predicate Visited(tasks: Graph, visited: set<TaskId>, stack: seq<TaskId>, done: seq<TaskId>) {
    && (forall t :: t in visited <==> t in stack || t in done)
    && (forall t :: t in visited ==> t in tasks)
    && (forall t :: t in stack ==> t !in done)
    && Respects(tasks, done)
    && (stack != [] ==> Path(tasks, stack))
  }

  lemma VisitFinishes(tasks: Graph, visited: set<TaskId>, stack: seq<TaskId>, done: seq<TaskId>, a: TaskId)
    requires Visited(tasks, visited, stack + [a], done) && a !in stack && Covered(tasks, a, done)
    ensures Visited(tasks, visited, stack, done + [a])
  {
    var grown := stack + [a];
    assert a in grown && a in tasks;
    RespectsNext(tasks, done, a);
    forall t ensures t in grown <==> t in stack || t == a {
    }
    if stack != [] {
      assert forall i :: 0 <= i < |stack| ==> stack[i] == grown[i];
      forall i | 0 <= i < |stack| - 1 ensures Edge(tasks, stack[i], stack[i + 1]) {
        assert Edge(tasks, grown[i], grown[i + 1]);
      }
    }
  }

  method Visit(
      tasks: Graph, visited: set<TaskId>, done: seq<TaskId>, node: TaskId, ghost stack: seq<TaskId>)
    returns (visited': set<TaskId>, done': seq<TaskId>)
    requires Visited(tasks, visited, stack, done) && !Cyclic(tasks)
    requires stack != [] && node in tasks ==> Edge(tasks, stack[|stack| - 1], node)
    ensures Visited(tasks, visited', stack, done') && visited <= visited' && done <= done'
    ensures node in tasks ==> node in done'
    decreases tasks.Keys - visited
  {
    hide Cyclic, Path, Respects, Edge;
    if node in visited || node !in tasks {
      if node in stack {
        BackEdgeIsCycle(tasks, stack, node);
      }
      return visited, done;
    }
    PathNext(tasks, stack, node);
    visited', done' := visited + {node}, done;
    ghost var grown := stack + [node];
    assert grown[|grown| - 1] == node;
    var dependencies := tasks[node];
    for k := 0 to |dependencies|
      invariant Visited(tasks, visited', grown, done') && visited + {node} <= visited' && done <= done'
      invariant forall j :: 0 <= j < k && dependencies[j] in tasks ==> dependencies[j] in done'
    {
      if dependencies[k] in tasks {
        IsEdge(tasks, node, k);
      }
      assert node in visited' && node !in visited;
      visited', done' := Visit(tasks, visited', done', dependencies[k], grown);
    }
    AllCovered(tasks, node, done');
    VisitFinishes(tasks, visited', stack, done', node);
    done' := done' + [node];
  }

  /** All tasks, each once and after everything it depends on; no result exactly when there is a cycle. */
  method TopologicalSort(tasks: Graph, order: seq<TaskId>) returns (sorted: Option<seq<TaskId>>)
    requires Lists(order, tasks)
    ensures sorted == None <==> Cyclic(tasks)
    ensures sorted.Some? ==> Lists(sorted.value, tasks) && Respects(tasks, sorted.value)
  {
    var cyclic := DetectCycles(tasks, order);
    if cyclic {
      return None;
    }
    assert Respects(tasks, []);
    hide Cyclic, Respects, Path;
    var visited: set<TaskId>, done: seq<TaskId> := {}, [];
    for i := 0 to |order|
      invariant Visited(tasks, visited, [], done)
      invariant forall j :: 0 <= j < i ==> order[j] in done
    {
      assert order[i] in order;
      visited, done := Visit(tasks, visited, done, order[i], []);
    }
    RespectsAreTasks(tasks, done);
    sorted := Some(done);
  }

  lemma RespectsAreTasks(tasks: Graph, done: seq<TaskId>)
    requires Respects(tasks, done)
    ensures Distinct(done) && forall t :: t in done ==> t in tasks
  {
  }

  // ---------- Everything that depends on a task ----------

  /** A dependency of a task, whether or not it is itself a task. */
  predicate Needs(tasks: Graph, a: TaskId, b: TaskId) {
    a in tasks && b in tasks[a]
  }

  /** `p` leads from a task over its dependencies to `target`. */
  ghost predicate LeadsTo(tasks: Graph, p: seq<TaskId>, target: TaskId) {
    && |p| > 1 && p[|p| - 1] == target
    && forall i :: 0 <= i < |p| - 1 ==> Needs(tasks, p[i], p[i + 1])
  }

  /** `a` depends on `target`, directly or over other tasks. */
  ghost predicate Depends(tasks: Graph, a: TaskId, target: TaskId) {
    exists p :: LeadsTo(tasks, p, target) && p[0] == a
  }

  lemma DirectDepends(tasks: Graph, a: TaskId, target: TaskId)
    requires Needs(tasks, a, target)
    ensures Depends(tasks, a, target)
  {
    assert LeadsTo(tasks, [a, target], target);
  }

  lemma DependsOver(tasks: Graph, a: TaskId, b: TaskId, target: TaskId)
    requires Needs(tasks, a, b) && Depends(tasks, b, target)
    ensures Depends(tasks, a, target)
  {
    var p :| LeadsTo(tasks, p, target) && p[0] == b;
    var q := [a] + p;
    forall i | 0 <= i < |q| - 1 ensures Needs(tasks, q[i], q[i + 1]) {
      assert i > 0 ==> Needs(tasks, p[i - 1], p[i - 1 + 1]);
    }
    assert LeadsTo(tasks, q, target) && q[0] == a;
  }

  /** A set that holds whatever needs the target or a member of it holds all that depends on the target. */
  lemma {:induction false} ClosedHoldsAll(tasks: Graph, s: set<TaskId>, p: seq<TaskId>, target: TaskId)
    requires forall a, b :: Needs(tasks, a, b) && (b == target || b in s) ==> a in s
    requires LeadsTo(tasks, p, target)
    ensures p[0] in s
    decreases |p|
  {
    assert Needs(tasks, p[0], p[1]);
    if |p| > 2 {
      var rest := p[1..];
      forall i | 0 <= i < |rest| - 1 ensures Needs(tasks, rest[i], rest[i + 1]) {
        assert Needs(tasks, p[i + 1], p[i + 1 + 1]);
      }
      ClosedHoldsAll(tasks, s, rest, target);
    }
  }

  type Children = map<TaskId, seq<TaskId>>

  function ChildrenOf(children: Children, t: TaskId): seq<TaskId> {
    if t in children then children[t] else []
  }

  /** The reverse of the dependencies of the first `n` tasks. */
  ghost predicate Reverses(children: Children, tasks: Graph, order: seq<TaskId>, n: nat)
    requires n <= |order|
  {
    forall a, b :: a in ChildrenOf(children, b) <==> Needs(tasks, a, b) && a in order[..n]
  }

  method AddDependencies(children: Children, a: TaskId, dependencies: seq<TaskId>) returns (children': Children)
    ensures forall x, b ::
      x in ChildrenOf(children', b) <==> x in ChildrenOf(children, b) || (x == a && b in dependencies)
  {
    children' := children;
    for k := 0 to |dependencies|
      invariant forall x, b ::
        x in ChildrenOf(children', b) <==> x in ChildrenOf(children, b) || (x == a && b in dependencies[..k])
    {
      var d := dependencies[k];
      ghost var before := children';
      children' := children'[d := ChildrenOf(children', d) + [a]];
      forall x, b ensures x in ChildrenOf(children', b) <==> x in ChildrenOf(before, b) || (x == a && b == d) {
      }
    }
    assert dependencies[..|dependencies|] == dependencies;
  }

  method BuildChildren(tasks: Graph, order: seq<TaskId>) returns (children: Children)
    requires Lists(order, tasks)
    ensures forall a, b :: a in ChildrenOf(children, b) <==> Needs(tasks, a, b)
  {
    children := map[];
    for i := 0 to |order|
      invariant Reverses(children, tasks, order, i)
    {
      assert order[i] in order;
      children := AddDependencies(children, order[i], tasks[order[i]]);
    }
    assert order[..|order|] == order;
  }

  /** Exactly the tasks that depend on `target`, directly or over others. */
  method GetDescendants(tasks: Graph, order: seq<TaskId>, target: TaskId) returns (descendants: set<TaskId>)
    requires Lists(order, tasks)
    ensures forall a :: a in descendants <==> Depends(tasks, a, target)
  {
    var children := BuildChildren(tasks, order);
    hide Depends, Lists;
    descendants := {};
    var queue := ChildrenOf(children, target);
    forall a | a in queue ensures Depends(tasks, a, target) {
      DirectDepends(tasks, a, target);
    }
    while queue != []
      invariant forall a :: a in descendants || a in queue ==> a in tasks && Depends(tasks, a, target)
      invariant forall a, b ::
        Needs(tasks, a, b) && (b == target || b in descendants) ==> a in descendants || a in queue
      decreases tasks.Keys - descendants, |queue|
    {
      var current := queue[0];
      assert queue == [current] + queue[1..];
      if current !in descendants && current in tasks {
        var next := ChildrenOf(children, current);
        forall a | a in next ensures Depends(tasks, a, target) {
          DependsOver(tasks, a, current, target);
        }
        queue := AddChildren(queue[1..], next, descendants + {current});
        assert current in tasks.Keys - descendants;
        descendants := descendants + {current};
      } else {
        queue := queue[1..];
      }
    }
    forall a | Depends(tasks, a, target) ensures a in descendants {
      DependentIsHeld(tasks, descendants, a, target);
    }
  }

  lemma DependentIsHeld(tasks: Graph, s: set<TaskId>, a: TaskId, target: TaskId)
    requires forall a, b :: Needs(tasks, a, b) && (b == target || b in s) ==> a in s
    requires Depends(tasks, a, target)
    ensures a in s
  {
    var p :| LeadsTo(tasks, p, target) && p[0] == a;
    ClosedHoldsAll(tasks, s, p, target);
  }

  method AddChildren(queue: seq<TaskId>, children: seq<TaskId>, descendants: set<TaskId>) returns (queue': seq<TaskId>)
    ensures forall x :: x in queue' <==> x in queue || (x in children && x !in descendants)
  {
    queue' := queue;
    for k := 0 to |children|
      invariant forall x :: x in queue' <==> x in queue || (x in children[..k] && x !in descendants)
    {
      if children[k] !in descendants {
        queue' := queue' + [children[k]];
      }
    }
    assert children[..|children|] == children;
  }
}

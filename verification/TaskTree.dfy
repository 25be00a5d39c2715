/**
 The task forest shown to a reader: one node object per task, linked from its parent's
 `children` list, or from the list of roots when it has no known parent. A node is linked
 while its own children are still to come, so the lists are shared and still growing.
 */
module TaskTree {
  import opened Pigeonhole
  import opened Tasks
  import opened Wrappers

  datatype Task = Task(id: TaskId, parent: Option<TaskId>)

  class TaskNode {
    const id: TaskId
    var children: seq<TaskNode>

    constructor (id: TaskId)
      ensures this.id == id && children == []
    {
      this.id := id;
      children := [];
    }
  }

  function AllIds(tasks: seq<Task>): set<TaskId> {
    set t | t in tasks :: t.id
  }

  ghost predicate DistinctIds(tasks: seq<Task>) {
    forall i, j :: 0 <= i < j < |tasks| ==> tasks[i].id != tasks[j].id
  }

  /** The parent `t` is linked from: named, not empty, and a known task. */
  function LinkOf(t: Task, known: set<TaskId>): (p: Option<TaskId>)
    ensures p.Some? ==> p.value in known
  {
    if t.parent.Some? && t.parent.value.text != "" && t.parent.value in known then t.parent else None
  }

  function ChildIds(tasks: seq<Task>, known: set<TaskId>, id: TaskId): seq<TaskId> {
    if tasks == [] then []
    else if LinkOf(tasks[0], known) == Some(id) then [tasks[0].id] + ChildIds(tasks[1..], known, id)
    else ChildIds(tasks[1..], known, id)
  }

  function RootIds(tasks: seq<Task>, known: set<TaskId>): seq<TaskId> {
    if tasks == [] then []
    else if LinkOf(tasks[0], known) == None then [tasks[0].id] + RootIds(tasks[1..], known)
    else RootIds(tasks[1..], known)
  }

  lemma {:induction false} LinksSnoc(tasks: seq<Task>, t: Task, known: set<TaskId>, id: TaskId)
    ensures ChildIds(tasks + [t], known, id) ==
      ChildIds(tasks, known, id) + (if LinkOf(t, known) == Some(id) then [t.id] else [])
    ensures RootIds(tasks + [t], known) ==
      RootIds(tasks, known) + (if LinkOf(t, known) == None then [t.id] else [])
  {
    if tasks == [] {
      assert tasks + [t] == [t];
    } else {
      assert (tasks + [t])[1..] == tasks[1..] + [t];
      LinksSnoc(tasks[1..], t, known, id);
    }
  }

  lemma {:induction false} InLinks(tasks: seq<Task>, known: set<TaskId>, id: TaskId, child: TaskId)
    ensures child in ChildIds(tasks, known, id) <==>
      exists t :: t in tasks && t.id == child && LinkOf(t, known) == Some(id)
    ensures child in RootIds(tasks, known) <==>
      exists t :: t in tasks && t.id == child && LinkOf(t, known) == None
  {
    if tasks != [] {
      InLinks(tasks[1..], known, id, child);
      assert forall t :: t in tasks <==> t == tasks[0] || t in tasks[1..];
    }
  }

  // ---------- The heap ----------

  /** One node per known id, each under its own id. */
  ghost predicate NodeTable(nodes: map<TaskId, TaskNode>, known: set<TaskId>) {
    nodes.Keys == known && forall id :: id in nodes ==> nodes[id].id == id
  }

  /** `list` holds exactly the nodes of `ids`, in order. */
  ghost predicate Holds(nodes: map<TaskId, TaskNode>, list: seq<TaskNode>, ids: seq<TaskId>) {
    |list| == |ids| && forall i :: 0 <= i < |ids| ==> ids[i] in nodes && list[i] == nodes[ids[i]]
  }

  /** Node `id` lists exactly the nodes of its children among `tasks`, in task order. */
  ghost predicate LinkedTo(nodes: map<TaskId, TaskNode>, tasks: seq<Task>, known: set<TaskId>, id: TaskId)
    requires id in nodes
    reads nodes[id]
  {
    Holds(nodes, nodes[id].children, ChildIds(tasks, known, id))
  }

  method BuildNodes(tasks: seq<Task>) returns (nodes: map<TaskId, TaskNode>)
    ensures NodeTable(nodes, AllIds(tasks))
    ensures forall id :: id in nodes ==> fresh(nodes[id]) && nodes[id].children == []
  {
    nodes := map[];
    for i := 0 to |tasks|
      invariant NodeTable(nodes, AllIds(tasks[..i]))
      invariant forall id :: id in nodes ==> fresh(nodes[id]) && nodes[id].children == []
    {
      var node := new TaskNode(tasks[i].id);
      assert tasks[..i + 1] == tasks[..i] + [tasks[i]];
      assert AllIds(tasks[..i + 1]) == AllIds(tasks[..i]) + {tasks[i].id};
      nodes := nodes[tasks[i].id := node];
    }
    assert tasks[..|tasks|] == tasks;
  }

  /** Linking one task appends its node to one list and leaves every other list alone. */
  method LinkChild(
      nodes: map<TaskId, TaskNode>, t: Task, parent: TaskId, ghost done: seq<Task>, ghost known: set<TaskId>)
    requires NodeTable(nodes, known) && LinkOf(t, known) == Some(parent) && t.id in nodes
    requires forall id :: id in nodes ==> LinkedTo(nodes, done, known, id)
    modifies nodes[parent]
    ensures forall id :: id in nodes ==> LinkedTo(nodes, done + [t], known, id)
  {
    var p := nodes[parent];
    p.children := p.children + [nodes[t.id]];
    forall id | id in nodes ensures LinkedTo(nodes, done + [t], known, id) {
      LinksSnoc(done, t, known, id);
      if id != parent {
        assert nodes[id].id != p.id;
      }
    }
  }

  lemma NothingLinked(known: set<TaskId>)
    ensures RootIds([], known) == [] && forall id :: ChildIds([], known, id) == []
  {
  }

  lemma RootChangesNoList(nodes: map<TaskId, TaskNode>, done: seq<Task>, t: Task, known: set<TaskId>)
    requires LinkOf(t, known) == None
    requires forall id :: id in nodes ==> LinkedTo(nodes, done, known, id)
    ensures forall id :: id in nodes ==> LinkedTo(nodes, done + [t], known, id)
  {
    forall id | id in nodes ensures LinkedTo(nodes, done + [t], known, id) {
      assert LinkedTo(nodes, done, known, id);
      LinksSnoc(done, t, known, id);
    }
  }

  /**
   The forest: the roots in task order, and every node's children in task order. The nodes
   are new objects, so nothing the caller holds is changed.
   */
  method GetTaskTree(tasks: seq<Task>) returns (roots: seq<TaskNode>, ghost nodes: map<TaskId, TaskNode>)
    ensures NodeTable(nodes, AllIds(tasks))
    ensures forall id :: id in nodes ==> fresh(nodes[id])
    ensures forall id :: id in nodes ==> LinkedTo(nodes, tasks, AllIds(tasks), id)
    ensures Holds(nodes, roots, RootIds(tasks, AllIds(tasks)))
  {
    hide ChildIds, RootIds;
    var taskMap := BuildNodes(tasks);
    NothingLinked(AllIds(tasks));
    nodes := taskMap;
    ghost var known := AllIds(tasks);
    roots := [];
    for i := 0 to |tasks|
      invariant forall id :: id in nodes ==> fresh(nodes[id])
      invariant forall id :: id in nodes ==> LinkedTo(nodes, tasks[..i], known, id)
      invariant Holds(nodes, roots, RootIds(tasks[..i], known))
    {
      var t := tasks[i];
      ghost var done := tasks[..i];
      assert t in tasks && tasks[..i + 1] == done + [t];
      LinksSnoc(done, t, known, TaskId(""));
      if t.parent.Some? && t.parent.value.text != "" && t.parent.value in taskMap {
        LinkChild(taskMap, t, t.parent.value, done, known);
      } else {
        roots := roots + [taskMap[t.id]];
        RootChangesNoList(nodes, done, t, known);
      }
    }
    assert tasks[..|tasks|] == tasks;
  }

  // ---------- What appears in the forest ----------

  ghost predicate Listed(tasks: seq<Task>, parent: TaskId, child: TaskId) {
    child in ChildIds(tasks, AllIds(tasks), parent)
  }

  ghost predicate IsRoot(tasks: seq<Task>, id: TaskId) {
    id in RootIds(tasks, AllIds(tasks))
  }

  /** A walk down the forest: it starts at a root and follows child lists. */
  ghost predicate Walk(tasks: seq<Task>, p: seq<TaskId>) {
    && p != []
    && if |p| == 1 then IsRoot(tasks, p[0])
       else Listed(tasks, p[|p| - 2], p[|p| - 1]) && Walk(tasks, p[..|p| - 1])
  }

  /** The node of `id` can be reached from the roots. */
  ghost predicate Appears(tasks: seq<Task>, id: TaskId) {
    exists p :: Walk(tasks, p) && p[|p| - 1] == id
  }

  /** The `k`-th link up from `id`, if there is one. */
  ghost function Ancestor(tasks: seq<Task>, id: TaskId, k: nat): Option<TaskId> {
    if k == 0 then Some(id)
    else
      var a := Ancestor(tasks, id, k - 1);
      if a.Some? then LinkOf(TaskOf(tasks, a.value), AllIds(tasks)) else None
  }

  /** The task with this id; ids that no task has behave like a task without a parent. */
  ghost function TaskOf(tasks: seq<Task>, id: TaskId): (t: Task)
    ensures id in AllIds(tasks) ==> t in tasks && t.id == id
  {
    if tasks == [] then Task(id, None)
    else if tasks[0].id == id then tasks[0]
    else TaskOf(tasks[1..], id)
  }

  lemma TaskOfMember(tasks: seq<Task>, t: Task)
    requires DistinctIds(tasks) && t in tasks
    ensures TaskOf(tasks, t.id) == t
  {
    var u := TaskOf(tasks, t.id);
    assert t.id in AllIds(tasks);
  }

  /** Being listed under a parent, and being a root, are read off the task's own link. */
  lemma LinksAreUnique(tasks: seq<Task>, parent: TaskId, id: TaskId)
    requires DistinctIds(tasks) && id in AllIds(tasks)
    ensures Listed(tasks, parent, id) <==> Ancestor(tasks, id, 1) == Some(parent)
    ensures IsRoot(tasks, id) <==> Ancestor(tasks, id, 1) == None
  {
    var known := AllIds(tasks);
    InLinks(tasks, known, parent, id);
    forall t | t in tasks && t.id == id ensures t == TaskOf(tasks, id) {
      TaskOfMember(tasks, t);
    }
    assert Ancestor(tasks, id, 0) == Some(id);
  }

  /**
   The edges are the parent relation of the task records: a task is listed under exactly the parent its
   own field names, if that is the id of a task; and it is a root when the field is missing, empty, or
   the id of no task.
   */
  lemma EdgesAreParents(tasks: seq<Task>, parent: TaskId, t: Task)
    requires DistinctIds(tasks) && t in tasks
    ensures Listed(tasks, parent, t.id) <==>
      t.parent == Some(parent) && parent.text != "" && exists u :: u in tasks && u.id == parent
    ensures IsRoot(tasks, t.id) <==>
      t.parent == None || t.parent.value.text == "" || forall u :: u in tasks ==> u.id != t.parent.value
  {
    InLinks(tasks, AllIds(tasks), parent, t.id);
    forall u | u in tasks && u.id == t.id ensures u == t {
      TaskOfMember(tasks, t);
      TaskOfMember(tasks, u);
    }
  }

  /** No list names a task twice, so a task's only place is the end of its one walk. */
  lemma {:induction false} ListsHaveNoRepeats(tasks: seq<Task>, known: set<TaskId>, id: TaskId)
    requires DistinctIds(tasks)
    ensures Distinct(ChildIds(tasks, known, id)) && Distinct(RootIds(tasks, known))
  {
    if tasks != [] {
      ListsHaveNoRepeats(tasks[1..], known, id);
      InLinks(tasks[1..], known, id, tasks[0].id);
    }
  }

  lemma LinkedAreKnown(tasks: seq<Task>, parent: TaskId, id: TaskId)
    ensures Listed(tasks, parent, id) || IsRoot(tasks, id) ==> id in AllIds(tasks)
  {
    InLinks(tasks, AllIds(tasks), parent, id);
  }

  lemma {:induction false} AncestorOfParent(tasks: seq<Task>, id: TaskId, parent: TaskId, k: nat)
    requires Ancestor(tasks, id, 1) == Some(parent)
    ensures Ancestor(tasks, id, k + 1) == Ancestor(tasks, parent, k)
  {
    if k > 0 {
      AncestorOfParent(tasks, id, parent, k - 1);
    }
  }

  /** Two walks to the same task are the same walk: no task appears twice. */
  lemma {:induction false} WalkIsUnique(tasks: seq<Task>, p: seq<TaskId>, q: seq<TaskId>)
    requires DistinctIds(tasks) && Walk(tasks, p) && Walk(tasks, q) && p[|p| - 1] == q[|q| - 1]
    ensures p == q
    decreases |p|
  {
    var id := p[|p| - 1];
    var up := if |p| > 1 then p[|p| - 2] else TaskId("");
    var uq := if |q| > 1 then q[|q| - 2] else TaskId("");
    LinkedAreKnown(tasks, up, id);
    LinksAreUnique(tasks, up, id);
    LinksAreUnique(tasks, uq, id);
    if |p| > 1 && |q| > 1 {
      WalkIsUnique(tasks, p[..|p| - 1], q[..|q| - 1]);
      assert p == p[..|p| - 1] + [id] && q == q[..|q| - 1] + [id];
    }
  }

  /** A walk is the chain of ancestors, read backwards; it ends when the chain does. */
  lemma {:induction false} WalkFollowsAncestors(tasks: seq<Task>, p: seq<TaskId>)
    requires DistinctIds(tasks) && Walk(tasks, p)
    ensures p[|p| - 1] in AllIds(tasks) && Ancestor(tasks, p[|p| - 1], |p|) == None
    decreases |p|
  {
    var id := p[|p| - 1];
    var up := if |p| > 1 then p[|p| - 2] else TaskId("");
    LinkedAreKnown(tasks, up, id);
    LinksAreUnique(tasks, up, id);
    if |p| > 1 {
      WalkFollowsAncestors(tasks, p[..|p| - 1]);
      AncestorOfParent(tasks, id, up, |p| - 1);
    }
  }

  /** When the chain of ancestors ends, there is a walk down it. */
  lemma {:induction false} WalkTo(tasks: seq<Task>, id: TaskId, k: nat) returns (p: seq<TaskId>)
    requires DistinctIds(tasks) && id in AllIds(tasks) && Ancestor(tasks, id, k) == None
    ensures Walk(tasks, p) && p[|p| - 1] == id
    decreases k
  {
    hide ChildIds, RootIds, TaskOf;
    LinksAreUnique(tasks, TaskId(""), id);
    if Ancestor(tasks, id, 1) == None {
      p := [id];
    } else {
      var parent := Ancestor(tasks, id, 1).value;
      LinksAreUnique(tasks, parent, id);
      AncestorOfParent(tasks, id, parent, k - 1);
      assert Ancestor(tasks, id, 1) == LinkOf(TaskOf(tasks, id), AllIds(tasks)) by {
        assert Ancestor(tasks, id, 0) == Some(id);
      }
      var q := WalkTo(tasks, parent, k - 1);
      p := q + [id];
      assert p[..|p| - 1] == q;
    }
  }

  /** A task appears in the forest exactly when its chain of parents ends. */
  lemma AppearsIffChainEnds(tasks: seq<Task>, id: TaskId)
    requires DistinctIds(tasks) && id in AllIds(tasks)
    ensures Appears(tasks, id) <==> exists k: nat :: Ancestor(tasks, id, k) == None
  {
    if Appears(tasks, id) {
      var p :| Walk(tasks, p) && p[|p| - 1] == id;
      WalkFollowsAncestors(tasks, p);
    }
    if k: nat :| Ancestor(tasks, id, k) == None {
      var p := WalkTo(tasks, id, k);
    }
  }

  /** Otherwise its chain of parents runs into a cycle. */
  lemma MissingIffOnWayToCycle(tasks: seq<Task>, id: TaskId)
    requires DistinctIds(tasks) && id in AllIds(tasks)
    ensures !Appears(tasks, id) <==>
      exists i: nat, j: nat :: i < j && Ancestor(tasks, id, i).Some? && Ancestor(tasks, id, i) == Ancestor(tasks, id, j)
  {
    AppearsIffChainEnds(tasks, id);
    if !Appears(tasks, id) {
      var i, j := AncestorsRepeat(tasks, id);
    }
    if i: nat, j: nat :| i < j && Ancestor(tasks, id, i).Some? && Ancestor(tasks, id, i) == Ancestor(tasks, id, j) {
      forall k: nat ensures Ancestor(tasks, id, k).Some? {
        CycleNeverEnds(tasks, id, i, j, k);
      }
    }
  }

  lemma {:induction false} AncestorsAreKnown(tasks: seq<Task>, id: TaskId, k: nat)
    requires id in AllIds(tasks)
    ensures Ancestor(tasks, id, k).Some? ==> Ancestor(tasks, id, k).value in AllIds(tasks)
  {
  }

  lemma AncestorsRepeat(tasks: seq<Task>, id: TaskId) returns (i: nat, j: nat)
    requires id in AllIds(tasks) && forall k: nat :: Ancestor(tasks, id, k).Some?
    ensures i < j && Ancestor(tasks, id, i) == Ancestor(tasks, id, j)
  {
    var chain := seq(|tasks| + 1, k requires 0 <= k => Ancestor(tasks, id, k).value);
    var pool := seq(|tasks|, k requires 0 <= k < |tasks| => tasks[k].id);
    forall x | x in chain ensures x in pool {
      var k :| 0 <= k < |chain| && chain[k] == x;
      AncestorsAreKnown(tasks, id, k);
      var t :| t in tasks && t.id == x;
      var m :| 0 <= m < |tasks| && tasks[m] == t;
      assert pool[m] == x;
    }
    i, j := Repeats(chain, pool);
    assert chain[i] == Ancestor(tasks, id, i).value && chain[j] == Ancestor(tasks, id, j).value;
  }

  lemma {:induction false} CycleNeverEnds(tasks: seq<Task>, id: TaskId, i: nat, j: nat, k: nat)
    requires i < j && Ancestor(tasks, id, i).Some? && Ancestor(tasks, id, i) == Ancestor(tasks, id, j)
    ensures Ancestor(tasks, id, k).Some?
    decreases k
  {
    if k <= j {
      EndedStaysEnded(tasks, id, k, j);
    } else {
      CycleNeverEnds(tasks, id, i, j, k - (j - i));
      SameFromSame(tasks, id, i, j, k - j);
    }
  }

  lemma {:induction false} EndedStaysEnded(tasks: seq<Task>, id: TaskId, k: nat, m: nat)
    requires k <= m && Ancestor(tasks, id, m).Some?
    ensures Ancestor(tasks, id, k).Some?
    decreases m
  {
    if k < m {
      EndedStaysEnded(tasks, id, k, m - 1);
    }
  }

  lemma {:induction false} SameFromSame(tasks: seq<Task>, id: TaskId, i: nat, j: nat, n: nat)
    requires Ancestor(tasks, id, i) == Ancestor(tasks, id, j)
    ensures Ancestor(tasks, id, i + n) == Ancestor(tasks, id, j + n)
  {
    if n > 0 {
      SameFromSame(tasks, id, i, j, n - 1);
    }
  }

  // ---------- Walks over the nodes themselves ----------

  /** A walk over node objects: from one of the roots, from each node to one in its list. */
  ghost predicate NodeWalk(nodes: map<TaskId, TaskNode>, roots: seq<TaskNode>, q: seq<TaskNode>)
    reads nodes.Values
  {
    && q != []
    && if |q| == 1 then q[0] in roots
       else q[|q| - 2] in nodes.Values && q[|q| - 1] in q[|q| - 2].children && NodeWalk(nodes, roots, q[..|q| - 1])
  }

  ghost function Ids(q: seq<TaskNode>): seq<TaskId> {
    seq(|q|, i requires 0 <= i < |q| => q[i].id)
  }

  ghost predicate InTable(nodes: map<TaskId, TaskNode>, node: TaskNode) {
    node.id in nodes && nodes[node.id] == node
  }

  lemma HeldNode(
      nodes: map<TaskId, TaskNode>, known: set<TaskId>, list: seq<TaskNode>, ids: seq<TaskId>, node: TaskNode)
    requires NodeTable(nodes, known) && Holds(nodes, list, ids)
    ensures node in list <==> InTable(nodes, node) && node.id in ids
  {
    if node in list {
      var i :| 0 <= i < |list| && list[i] == node;
      assert node == nodes[ids[i]];
    }
    if InTable(nodes, node) && node.id in ids {
      var i :| 0 <= i < |ids| && ids[i] == node.id;
      assert list[i] == node;
    }
  }

  /** In what `GetTaskTree` leaves, the walks over the nodes are exactly the walks over their ids. */
  lemma {:induction false} NodeWalksAreWalks(
      tasks: seq<Task>, nodes: map<TaskId, TaskNode>, roots: seq<TaskNode>, q: seq<TaskNode>)
    requires NodeTable(nodes, AllIds(tasks)) && Holds(nodes, roots, RootIds(tasks, AllIds(tasks)))
    requires forall id :: id in nodes ==> LinkedTo(nodes, tasks, AllIds(tasks), id)
    ensures NodeWalk(nodes, roots, q) <==> Walk(tasks, Ids(q)) && forall i :: 0 <= i < |q| ==> InTable(nodes, q[i])
    decreases |q|
  {
    hide ChildIds, RootIds;
    var known, n := AllIds(tasks), |q| - 1;
    if |q| == 1 {
      HeldNode(nodes, known, roots, RootIds(tasks, known), q[0]);
    } else if |q| > 1 {
      var before, up := q[..n], q[n - 1];
      NodeWalksAreWalks(tasks, nodes, roots, before);
      assert Ids(q)[..n] == Ids(before) && before[n - 1] == up;
      assert (forall i :: 0 <= i < |q| ==> InTable(nodes, q[i]))
        <==> (forall i :: 0 <= i < n ==> InTable(nodes, before[i])) && InTable(nodes, q[n]);
      if NodeWalk(nodes, roots, before) {
        assert InTable(nodes, up);
        assert LinkedTo(nodes, tasks, known, up.id);
        HeldNode(nodes, known, up.children, ChildIds(tasks, known, up.id), q[n]);
      }
    }
  }

  /** So no node object is met on two walks, and those met belong to the tasks that appear. */
  lemma NodeWalkIsUnique(
      tasks: seq<Task>, nodes: map<TaskId, TaskNode>, roots: seq<TaskNode>, p: seq<TaskNode>, q: seq<TaskNode>)
    requires DistinctIds(tasks)
    requires NodeTable(nodes, AllIds(tasks)) && Holds(nodes, roots, RootIds(tasks, AllIds(tasks)))
    requires forall id :: id in nodes ==> LinkedTo(nodes, tasks, AllIds(tasks), id)
    requires NodeWalk(nodes, roots, p) && NodeWalk(nodes, roots, q) && p[|p| - 1] == q[|q| - 1]
    ensures p == q && Appears(tasks, p[|p| - 1].id)
  {
    hide ChildIds, RootIds, LinkedTo, NodeWalk;
    NodeWalksAreWalks(tasks, nodes, roots, p);
    NodeWalksAreWalks(tasks, nodes, roots, q);
    WalkIsUnique(tasks, Ids(p), Ids(q));
    assert |p| == |Ids(p)| == |Ids(q)| == |q|;
    forall i | 0 <= i < |p| ensures p[i] == q[i] {
      assert Ids(p)[i] == Ids(q)[i];
    }
  }
}

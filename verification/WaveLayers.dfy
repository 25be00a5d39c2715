/**
 The loop that computes the waves, the index of each task's wave, and what they mean in terms
 of rounds, chains, cycles and missing ids.
 */
module WaveLayers {
  import opened Tasks
  import opened WaveChains
  import opened WaveFallback
  import opened Waves

  // ---------- The loop ----------

  function ReadyTasks(ts: seq<Task>, resolved: set<TaskId>): seq<Task> {
    if ts == [] then []
    else if IsReady(ts[0], resolved) then [ts[0]] + ReadyTasks(ts[1..], resolved)
    else ReadyTasks(ts[1..], resolved)
  }

  function BlockedTasks(ts: seq<Task>, resolved: set<TaskId>): seq<Task> {
    if ts == [] then []
    else if IsReady(ts[0], resolved) then BlockedTasks(ts[1..], resolved)
    else [ts[0]] + BlockedTasks(ts[1..], resolved)
  }

  ghost function StuckTasks(tasks: seq<Task>, ts: seq<Task>): seq<Task> {
    if ts == [] then []
    else if Stuck(tasks, ts[0]) then [ts[0]] + StuckTasks(tasks, ts[1..])
    else StuckTasks(tasks, ts[1..])
  }

  /** The tasks no wave before `n` has taken. */
  ghost function Unplaced(tasks: seq<Task>, n: nat): seq<Task> {
    if n == 0 then tasks else BlockedTasks(tasks, Resolved(tasks, n - 1))
  }

  /** The tasks of wave `n`, in the order given. */
  ghost function WaveTasks(tasks: seq<Task>, n: nat): seq<Task> {
    ReadyTasks(Unplaced(tasks, n), Resolved(tasks, n))
  }

  lemma {:induction false} InReadyTasks(ts: seq<Task>, resolved: set<TaskId>, t: Task)
    ensures t in ReadyTasks(ts, resolved) <==> t in ts && IsReady(t, resolved)
  {
    if ts != [] {
      InReadyTasks(ts[1..], resolved, t);
    }
  }

  lemma {:induction false} InBlockedTasks(ts: seq<Task>, resolved: set<TaskId>, t: Task)
    ensures t in BlockedTasks(ts, resolved) <==> t in ts && !IsReady(t, resolved)
  {
    if ts != [] {
      InBlockedTasks(ts[1..], resolved, t);
    }
  }

  lemma {:induction false} InStuckTasks(tasks: seq<Task>, ts: seq<Task>, t: Task)
    ensures t in StuckTasks(tasks, ts) <==> t in ts && Stuck(tasks, t)
  {
    if ts != [] {
      InStuckTasks(tasks, ts[1..], t);
    }
  }

  lemma InWaveTasks(tasks: seq<Task>, n: nat, t: Task)
    ensures t in WaveTasks(tasks, n) <==> t in tasks && Placed(tasks, t, n)
  {
    InReadyTasks(Unplaced(tasks, n), Resolved(tasks, n), t);
    if n > 0 {
      InBlockedTasks(tasks, Resolved(tasks, n - 1), t);
    }
  }

  lemma {:induction false} InIds(ts: seq<Task>, id: TaskId)
    ensures id in Ids(ts) <==> exists t :: t in ts && t.id == id
  {
    if ts != [] {
      InIds(ts[1..], id);
      if t :| t in ts && t.id == id {
        assert t == ts[0] || t in ts[1..];
      }
    }
  }

  function Flatten(waves: seq<seq<TaskId>>): seq<TaskId> {
    if waves == [] then [] else waves[0] + Flatten(waves[1..])
  }

  /** `waves` has `regular` waves by round, and one more with the stuck tasks if there are any. */
  ghost predicate Layering(tasks: seq<Task>, waves: seq<seq<TaskId>>, regular: nat) {
    && (forall i :: 0 <= i < regular ==> i < |waves| && waves[i] == Ids(WaveTasks(tasks, i)) != [])
    && (forall t :: t in tasks && !Stuck(tasks, t) ==> exists i :: 0 <= i < regular && Placed(tasks, t, i))
    && (if StuckTasks(tasks, tasks) == [] then |waves| == regular
        else |waves| == regular + 1 && waves[regular] == Ids(StuckTasks(tasks, tasks)))
  }

  lemma {:induction false} IdsConcat(x: seq<Task>, y: seq<Task>)
    ensures Ids(x + y) == Ids(x) + Ids(y)
  {
    if x == [] {
      assert x + y == y;
    } else {
      assert (x + y)[1..] == x[1..] + y;
      IdsConcat(x[1..], y);
    }
  }

  lemma {:induction false} FlattenSnoc(waves: seq<seq<TaskId>>, w: seq<TaskId>)
    ensures Flatten(waves + [w]) == Flatten(waves) + w
  {
    if waves == [] {
      assert Flatten([w]) == w;
    } else {
      assert (waves + [w])[1..] == waves[1..] + [w];
      FlattenSnoc(waves[1..], w);
    }
  }

  lemma {:induction false} SplitSnoc(ts: seq<Task>, t: Task, resolved: set<TaskId>)
    ensures ReadyTasks(ts + [t], resolved) == ReadyTasks(ts, resolved) + ReadyTasks([t], resolved)
    ensures BlockedTasks(ts + [t], resolved) == BlockedTasks(ts, resolved) + BlockedTasks([t], resolved)
  {
    if ts == [] {
      assert ts + [t] == [t];
    } else {
      assert (ts + [t])[1..] == ts[1..] + [t];
      SplitSnoc(ts[1..], t, resolved);
    }
  }

  function CountId(ts: seq<Task>, id: TaskId): nat {
    multiset(Ids(ts))[id]
  }

  lemma CountCons(t: Task, ts: seq<Task>, id: TaskId)
    ensures CountId([t] + ts, id) == CountId(ts, id) + if t.id == id then 1 else 0
  {
    assert ([t] + ts)[1..] == ts;
    assert Ids([t] + ts) == [t.id] + Ids(ts);
  }

  lemma {:induction false} SplitLengths(ts: seq<Task>, resolved: set<TaskId>)
    ensures |ReadyTasks(ts, resolved)| + |BlockedTasks(ts, resolved)| == |ts|
  {
    if ts != [] {
      SplitLengths(ts[1..], resolved);
    }
  }

  lemma {:induction false} SplitCounts(ts: seq<Task>, resolved: set<TaskId>, id: TaskId)
    ensures CountId(ReadyTasks(ts, resolved), id) + CountId(BlockedTasks(ts, resolved), id) == CountId(ts, id)
  {
    hide CountId, IsReady;
    if ts == [] {
      CountNone(id);
    } else {
      SplitCounts(ts[1..], resolved, id);
      CountCons(ts[0], ts[1..], id);
      assert ts == [ts[0]] + ts[1..];
      if IsReady(ts[0], resolved) {
        CountCons(ts[0], ReadyTasks(ts[1..], resolved), id);
      } else {
        CountCons(ts[0], BlockedTasks(ts[1..], resolved), id);
      }
    }
  }

  lemma CountNone(id: TaskId)
    ensures CountId([], id) == 0
  {
    assert Ids([]) == [];
  }

  lemma SplitConserves(ts: seq<Task>, resolved: set<TaskId>)
    ensures |ReadyTasks(ts, resolved)| + |BlockedTasks(ts, resolved)| == |ts|
    ensures multiset(Ids(ReadyTasks(ts, resolved))) + multiset(Ids(BlockedTasks(ts, resolved)))
         == multiset(Ids(ts))
  {
    hide Ids, ReadyTasks, BlockedTasks;
    SplitLengths(ts, resolved);
    var ready, blocked := multiset(Ids(ReadyTasks(ts, resolved))), multiset(Ids(BlockedTasks(ts, resolved)));
    forall id ensures (ready + blocked)[id] == multiset(Ids(ts))[id] {
      SplitCounts(ts, resolved, id);
    }
  }

  lemma {:induction false} BlockedTwice(ts: seq<Task>, r1: set<TaskId>, r2: set<TaskId>)
    requires r1 <= r2
    ensures BlockedTasks(BlockedTasks(ts, r1), r2) == BlockedTasks(ts, r2)
  {
    if ts != [] {
      BlockedTwice(ts[1..], r1, r2);
      var rest := BlockedTasks(ts[1..], r1);
      if IsReady(ts[0], r1) {
        assert IsReady(ts[0], r2);
        assert BlockedTasks(ts, r1) == rest;
      } else {
        assert BlockedTasks(ts, r1) == [ts[0]] + rest;
        assert ([ts[0]] + rest)[1..] == rest;
      }
    }
  }

  lemma UnplacedNext(tasks: seq<Task>, n: nat)
    ensures Unplaced(tasks, n + 1) == BlockedTasks(Unplaced(tasks, n), Resolved(tasks, n))
  {
    if n > 0 {
      ResolvedGrows(tasks, n - 1, n);
      BlockedTwice(tasks, Resolved(tasks, n - 1), Resolved(tasks, n));
    }
  }

  /** Adding a wave's ids to the resolved set is one round. */
  lemma WaveIsRound(tasks: seq<Task>, n: nat)
    ensures Resolved(tasks, n + 1) == Resolved(tasks, n) + set id | id in Ids(WaveTasks(tasks, n))
  {
    forall id
      ensures id in Resolved(tasks, n + 1) <==> id in Resolved(tasks, n) || id in Ids(WaveTasks(tasks, n))
    {
      InIds(WaveTasks(tasks, n), id);
      if id in Resolved(tasks, n + 1) && id !in Resolved(tasks, n) {
        var t :| t in tasks && IsReady(t, Resolved(tasks, n)) && t.id == id;
        if n > 0 {
          ReadyIsResolved(tasks, t, n - 1);
        }
        InWaveTasks(tasks, n, t);
      }
      if t :| t in WaveTasks(tasks, n) && t.id == id {
        InWaveTasks(tasks, n, t);
      }
    }
  }

  lemma {:induction false} BlockedAreStuck(tasks: seq<Task>, ts: seq<Task>, n: nat)
    requires Resolved(tasks, n) == Resolved(tasks, n + 1)
    ensures BlockedTasks(ts, Resolved(tasks, n)) == StuckTasks(tasks, ts)
  {
    if ts != [] {
      BlockedAreStuck(tasks, ts[1..], n);
      if !IsReady(ts[0], Resolved(tasks, n)) {
        forall m: nat ensures !IsReady(ts[0], Resolved(tasks, m)) {
          if m <= n {
            ResolvedGrows(tasks, m, n);
          } else {
            ResolvedStays(tasks, n, m);
          }
        }
      }
    }
  }

  /** One pass over what remains: the ready ids in order, and the tasks put back. */
  method TakeWave(remaining: seq<Task>, resolved: set<TaskId>)
    returns (currentWave: seq<TaskId>, nextRemaining: seq<Task>)
    ensures currentWave == Ids(ReadyTasks(remaining, resolved))
    ensures nextRemaining == BlockedTasks(remaining, resolved)
  {
    currentWave, nextRemaining := [], [];
    for i := 0 to |remaining|
      invariant currentWave == Ids(ReadyTasks(remaining[..i], resolved))
      invariant nextRemaining == BlockedTasks(remaining[..i], resolved)
    {
      var t := remaining[i];
      SplitNext(remaining[..i], t, resolved);
      assert remaining[..i + 1] == remaining[..i] + [t];
      if IsReady(t, resolved) {
        currentWave := currentWave + [t.id];
      } else {
        nextRemaining := nextRemaining + [t];
      }
    }
    assert remaining[..|remaining|] == remaining;
  }

  lemma SplitNext(ts: seq<Task>, t: Task, resolved: set<TaskId>)
    ensures Ids(ReadyTasks(ts + [t], resolved)) ==
      Ids(ReadyTasks(ts, resolved)) + if IsReady(t, resolved) then [t.id] else []
    ensures BlockedTasks(ts + [t], resolved) ==
      BlockedTasks(ts, resolved) + if IsReady(t, resolved) then [] else [t]
  {
    hide IsReady;
    SplitSnoc(ts, t, resolved);
    IdsConcat(ReadyTasks(ts, resolved), ReadyTasks([t], resolved));
  }

  method ComputeWaves(tasks: seq<Task>) returns (waves: seq<seq<TaskId>>, ghost regular: nat)
    ensures Layering(tasks, waves, regular)
    ensures multiset(Flatten(waves)) == multiset(Ids(tasks))
  {
    hide Resolved, ReadyTasks, BlockedTasks, Ids, Flatten, Layering, LayeredSoFar;
    var resolved: set<TaskId> := {};
    var remaining := tasks;
    waves, regular := [], 0;
    BeforeFirstWave(tasks);
    while |remaining| > 0
      invariant resolved == Resolved(tasks, regular)
      invariant remaining == Unplaced(tasks, regular)
      invariant LayeredSoFar(tasks, waves, regular)
      invariant multiset(Flatten(waves)) + multiset(Ids(remaining)) == multiset(Ids(tasks))
      decreases |remaining|
    {
      var currentWave, nextRemaining := TakeWave(remaining, resolved);
      if currentWave == [] {
        WithFallback(tasks, waves, regular);
        currentWave := Ids(remaining);
        FlattenSnoc(waves, currentWave);
        waves := waves + [currentWave];
        return;
      }
      SplitConserves(remaining, resolved);
      IdsEmpty(ReadyTasks(remaining, resolved));
      UnplacedNext(tasks, regular);
      WaveIsRound(tasks, regular);
      FlattenSnoc(waves, currentWave);
      AddWave(tasks, waves, regular);
      waves := waves + [currentWave];
      resolved := resolved + set id | id in currentWave;
      remaining := nextRemaining;
      regular := regular + 1;
    }
    IdsEmpty(remaining);
    WithoutFallback(tasks, waves, regular);
  }

  ghost predicate LayeredSoFar(tasks: seq<Task>, waves: seq<seq<TaskId>>, n: nat) {
    |waves| == n && forall i :: 0 <= i < n ==> waves[i] == Ids(WaveTasks(tasks, i)) != []
  }

  lemma BeforeFirstWave(tasks: seq<Task>)
    ensures Resolved(tasks, 0) == {} && LayeredSoFar(tasks, [], 0) && Flatten([]) == []
  {
  }

  lemma AddWave(tasks: seq<Task>, waves: seq<seq<TaskId>>, n: nat)
    requires LayeredSoFar(tasks, waves, n) && Ids(WaveTasks(tasks, n)) != []
    ensures LayeredSoFar(tasks, waves + [Ids(WaveTasks(tasks, n))], n + 1)
  {
    hide Ids, WaveTasks;
  }

  lemma IdsEmpty(ts: seq<Task>)
    ensures Ids(ts) == [] <==> ts == []
  {
  }

  lemma WithFallback(tasks: seq<Task>, waves: seq<seq<TaskId>>, n: nat)
    requires LayeredSoFar(tasks, waves, n) && Unplaced(tasks, n) != [] && Ids(WaveTasks(tasks, n)) == []
    ensures Layering(tasks, waves + [Ids(Unplaced(tasks, n))], n)
  {
    IdsEmpty(WaveTasks(tasks, n));
    FallbackIsStuck(tasks, n);
    EveryTaskPlaced(tasks, n);
  }

  lemma WithoutFallback(tasks: seq<Task>, waves: seq<seq<TaskId>>, n: nat)
    requires LayeredSoFar(tasks, waves, n) && Unplaced(tasks, n) == []
    ensures Layering(tasks, waves, n)
  {
    FallbackIsStuck(tasks, n);
    EveryTaskPlaced(tasks, n);
  }

  /** When a pass takes nothing, what remains is exactly the stuck tasks. */
  lemma FallbackIsStuck(tasks: seq<Task>, n: nat)
    requires WaveTasks(tasks, n) == []
    ensures Unplaced(tasks, n) == StuckTasks(tasks, tasks)
  {
    WaveIsRound(tasks, n);
    assert Resolved(tasks, n) == Resolved(tasks, n + 1);
    BlockedAreStuck(tasks, tasks, n);
    UnplacedNext(tasks, n);
    AllBlocked(Unplaced(tasks, n), Resolved(tasks, n));
  }

  lemma {:induction false} AllBlocked(ts: seq<Task>, resolved: set<TaskId>)
    requires ReadyTasks(ts, resolved) == []
    ensures BlockedTasks(ts, resolved) == ts
  {
    if ts != [] {
      AllBlocked(ts[1..], resolved);
    }
  }

  lemma TaskPlaced(tasks: seq<Task>, t: Task, n: nat) returns (i: nat)
    requires WaveTasks(tasks, n) == [] && t in tasks && !Stuck(tasks, t)
    ensures i < n && Placed(tasks, t, i)
  {
    hide Resolved, WaveTasks, BlockedTasks, StuckTasks;
    assert t !in Unplaced(tasks, n) by {
      FallbackIsStuck(tasks, n);
      InStuckTasks(tasks, tasks, t);
    }
    i := FirstRound(tasks, t);
    if n > 0 {
      assert IsReady(t, Resolved(tasks, n - 1)) by {
        InBlockedTasks(tasks, Resolved(tasks, n - 1), t);
      }
      PlacedReady(tasks, t, i, n - 1);
    }
  }

  /** Only stuck tasks can still be unplaced when a pass takes nothing or nothing remains. */
  lemma EveryTaskPlaced(tasks: seq<Task>, n: nat)
    requires WaveTasks(tasks, n) == []
    ensures forall t :: t in tasks && !Stuck(tasks, t) ==> exists i :: 0 <= i < n && Placed(tasks, t, i)
  {
    forall t | t in tasks && !Stuck(tasks, t) ensures exists i :: 0 <= i < n && Placed(tasks, t, i) {
      var i := TaskPlaced(tasks, t, n);
    }
  }

  // ---------- What the waves mean ----------

  /** Without cycles and missing ids there is no fallback wave. */
  lemma AcyclicHasNoFallback(tasks: seq<Task>, waves: seq<seq<TaskId>>, regular: nat)
    requires DistinctIds(tasks) && Layering(tasks, waves, regular)
    ensures |waves| == regular <==>
      forall t :: t in tasks ==> !ReachesMissing(tasks, t) && !ReachesCycle(tasks, t)
  {
    forall t | t in tasks
      ensures Stuck(tasks, t) <==> ReachesMissing(tasks, t) || ReachesCycle(tasks, t)
    {
      StuckIffCycleOrMissing(tasks, t);
    }
    forall t ensures t in StuckTasks(tasks, tasks) <==> t in tasks && Stuck(tasks, t) {
      InStuckTasks(tasks, tasks, t);
    }
    if StuckTasks(tasks, tasks) != [] {
      assert StuckTasks(tasks, tasks)[0] in tasks;
    }
  }

  /** Every id is mapped to the last wave that lists it. */
  ghost predicate LastWave(waves: seq<seq<TaskId>>, index: map<TaskId, nat>) {
    && (forall w, id :: 0 <= w < |waves| && id in waves[w] ==> id in index && w <= index[id])
    && forall id {:trigger index[id]} :: id in index ==> index[id] < |waves| && id in waves[index[id]]
  }

  /** `after` is `before` with the ids of one more wave. */
  ghost predicate IndexedWave(before: map<TaskId, nat>, wave: seq<TaskId>, w: nat, after: map<TaskId, nat>) {
    && (forall id :: id in after <==> id in before || id in wave)
    && forall id :: id in after ==> after[id] == if id in wave then w else before[id]
  }

  lemma LastWaveNext(
      waves: seq<seq<TaskId>>, before: map<TaskId, nat>, wave: seq<TaskId>, after: map<TaskId, nat>)
    requires LastWave(waves, before) && IndexedWave(before, wave, |waves|, after)
    ensures LastWave(waves + [wave], after)
  {
    var all := waves + [wave];
    forall w, id | 0 <= w < |all| && id in all[w] ensures id in after && w <= after[id] {
      assert w < |waves| ==> all[w] == waves[w];
    }
    forall id | id in after ensures after[id] < |all| && id in all[after[id]] {
      assert id !in wave ==> all[before[id]] == waves[before[id]];
    }
  }

  method IndexWave(before: map<TaskId, nat>, wave: seq<TaskId>, w: nat) returns (index: map<TaskId, nat>)
    ensures IndexedWave(before, wave, w, index)
  {
    index := before;
    for i := 0 to |wave|
      invariant IndexedWave(before, wave[..i], w, index)
    {
      assert wave[..i + 1] == wave[..i] + [wave[i]];
      index := index[wave[i] := w];
    }
    assert wave[..|wave|] == wave;
  }

  method IndexWaves(waves: seq<seq<TaskId>>) returns (index: map<TaskId, nat>)
    ensures LastWave(waves, index)
  {
    index := map[];
    for w := 0 to |waves|
      invariant LastWave(waves[..w], index)
    {
      ghost var before := index;
      index := IndexWave(index, waves[w], w);
      assert waves[..w + 1] == waves[..w] + [waves[w]];
      LastWaveNext(waves[..w], before, waves[w], index);
    }
    assert waves[..|waves|] == waves;
  }

  /** The wave shown for a task: its longest dependency chain, or the fallback wave if it is stuck. */
  lemma ShownWave(tasks: seq<Task>, waves: seq<seq<TaskId>>, regular: nat, index: map<TaskId, nat>, t: Task)
    requires DistinctIds(tasks) && Layering(tasks, waves, regular) && LastWave(waves, index) && t in tasks
    ensures t.id in index
    ensures if index[t.id] == regular then Stuck(tasks, t) else Placed(tasks, t, index[t.id])
  {
    var w := ListedIn(tasks, waves, regular, t);
    var last := LastListed(waves, index, t.id, w);
    assert OwnsId(tasks, t);
    IdInOneWave(tasks, waves, regular, t, last);
  }

  lemma LastListed(waves: seq<seq<TaskId>>, index: map<TaskId, nat>, id: TaskId, w: nat) returns (last: nat)
    requires LastWave(waves, index) && w < |waves| && id in waves[w]
    ensures id in index && last == index[id] && last < |waves| && id in waves[last]
  {
    last := index[id];
  }

  /** No task is lost: its id is listed in the wave of its round, or in the fallback wave. */
  lemma ListedIn(tasks: seq<Task>, waves: seq<seq<TaskId>>, regular: nat, t: Task) returns (w: nat)
    requires t in tasks && Layering(tasks, waves, regular)
    ensures w < |waves| && t.id in waves[w]
  {
    if Stuck(tasks, t) {
      w := regular;
      InStuckTasks(tasks, tasks, t);
      InIds(StuckTasks(tasks, tasks), t.id);
    } else {
      w :| 0 <= w < regular && Placed(tasks, t, w);
      InWaveTasks(tasks, w, t);
      InIds(WaveTasks(tasks, w), t.id);
    }
  }

  /** With distinct ids, an id is listed only in the wave its task belongs to. */
  lemma IdInOneWave(tasks: seq<Task>, waves: seq<seq<TaskId>>, regular: nat, t: Task, w: nat)
    requires OwnsId(tasks, t) && t in tasks && Layering(tasks, waves, regular)
    requires w < |waves| && t.id in waves[w]
    ensures if w == regular then Stuck(tasks, t) else w < regular && Placed(tasks, t, w)
  {
    if w == regular {
      InIds(StuckTasks(tasks, tasks), t.id);
      InStuckTasks(tasks, tasks, t);
      var u :| u in StuckTasks(tasks, tasks) && u.id == t.id;
      InStuckTasks(tasks, tasks, u);
    } else {
      InIds(WaveTasks(tasks, w), t.id);
      var u :| u in WaveTasks(tasks, w) && u.id == t.id;
      InWaveTasks(tasks, w, u);
    }
  }
}

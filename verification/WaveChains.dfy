/** The rounds of the wave layering and the dependency chains: a task's round is its longest chain. */
module WaveChains {
  import opened Waves

  lemma ChainIs(tasks: seq<Task>, p: seq<Task>)
    ensures Chain(tasks, p) <==>
      && p != [] && p[0] in tasks
      && (|p| > 1 ==> p[1].id in p[0].dependencies && Chain(tasks, p[1..]))
  {
  }

  lemma {:induction false} ChainParts(tasks: seq<Task>, p: seq<Task>, i: nat)
    requires Chain(tasks, p) && i < |p|
    ensures p[i] in tasks && Chain(tasks, p[..i + 1]) && Chain(tasks, p[i..])
    decreases i
  {
    hide Chain;
    ChainIs(tasks, p);
    ChainIs(tasks, p[..i + 1]);
    if i > 0 {
      ChainParts(tasks, p[1..], i - 1);
      assert p[1..][..i] == p[..i + 1][1..];
      assert p[1..][i - 1..] == p[i..];
    } else {
      assert p[0..] == p;
    }
  }

  /** Along a chain the rounds go down by at least one per dependency. */
  lemma {:induction false} ChainDescends(tasks: seq<Task>, p: seq<Task>, n: nat)
    requires DistinctIds(tasks) && Chain(tasks, p) && IsReady(p[0], Resolved(tasks, n))
    ensures |p| <= n + 1
    ensures IsReady(p[|p| - 1], Resolved(tasks, n + 1 - |p|))
    decreases |p|
  {
    hide Resolved;
    if |p| > 1 {
      var m := RoundOf(tasks, p[1], n);
      ResolvedGrows(tasks, m, n - 1);
      ChainDescends(tasks, p[1..], n - 1);
      assert p[1..][|p| - 2] == p[|p| - 1];
    }
  }

  /** A resolved id was resolved by its own task, in an earlier round. */
  lemma {:induction false} RoundOf(tasks: seq<Task>, t: Task, n: nat) returns (m: nat)
    requires DistinctIds(tasks) && t in tasks && t.id in Resolved(tasks, n)
    ensures m < n && IsReady(t, Resolved(tasks, m))
  {
    if t.id in Resolved(tasks, n - 1) {
      m := RoundOf(tasks, t, n - 1);
    } else {
      assert OwnsId(tasks, t);
      m := n - 1;
    }
  }

  /** The chain that makes a task wait until round `n`. */
  /** A task placed in a later round depends on one placed in the round before. */
  lemma LastDependency(tasks: seq<Task>, t: Task, n: nat) returns (u: Task)
    requires t in tasks && n > 0 && Placed(tasks, t, n)
    ensures u in tasks && u.id in t.dependencies && Placed(tasks, u, n - 1)
  {
    var resolved := Resolved(tasks, n - 1);
    var d :| d in t.dependencies && d !in resolved;
    assert d in ReadyIds(tasks, resolved);
    u :| u in tasks && IsReady(u, resolved) && u.id == d;
    if n > 1 {
      var earlier := Resolved(tasks, n - 2);
      assert IsReady(u, earlier) ==> u.id in ReadyIds(tasks, earlier);
    }
  }

  lemma {:induction false} LongestChain(tasks: seq<Task>, t: Task, n: nat) returns (p: seq<Task>)
    requires t in tasks && Placed(tasks, t, n)
    ensures Chain(tasks, p) && p[0] == t && |p| == n + 1
    decreases n
  {
    if n == 0 {
      p := [t];
    } else {
      hide Placed;
      var u := LastDependency(tasks, t, n);
      var q := LongestChain(tasks, u, n - 1);
      p := [t] + q;
      assert p[1..] == q;
    }
  }

  /** A task placed in round `n` is ready in round `m` exactly from `n` on. */
  lemma PlacedReady(tasks: seq<Task>, t: Task, n: nat, m: nat)
    requires Placed(tasks, t, n)
    ensures IsReady(t, Resolved(tasks, m)) <==> n <= m
  {
    if n <= m {
      ResolvedGrows(tasks, n, m);
    } else {
      ResolvedGrows(tasks, m, n - 1);
    }
  }

  lemma PlacedOnce(tasks: seq<Task>, t: Task, m: nat, n: nat)
    requires Placed(tasks, t, m) && Placed(tasks, t, n)
    ensures m == n
  {
    PlacedReady(tasks, t, m, n);
    PlacedReady(tasks, t, n, m);
  }

  /** The wave of a resolvable task is the length, in dependencies, of the longest chain from it. */
  lemma WaveIsLongestChain(tasks: seq<Task>, t: Task, n: nat)
    requires DistinctIds(tasks) && t in tasks && !Stuck(tasks, t)
    ensures Placed(tasks, t, n) <==>
      && (exists p :: Chain(tasks, p) && p[0] == t && |p| == n + 1)
      && (forall p :: Chain(tasks, p) && p[0] == t ==> |p| <= n + 1)
  {
    var m := FirstRound(tasks, t);
    var longest := LongestChain(tasks, t, m);
    forall p | Chain(tasks, p) && p[0] == t ensures |p| <= m + 1 {
      ChainDescends(tasks, p, m);
    }
    if Placed(tasks, t, n) {
      PlacedOnce(tasks, t, m, n);
    }
    if p :| Chain(tasks, p) && p[0] == t && |p| == n + 1 {
      assert n <= m;
    }
  }

  /** A dependency is always in a strictly earlier wave. */
  lemma DependencyIsEarlier(tasks: seq<Task>, t: Task, u: Task, n: nat)
    requires DistinctIds(tasks) && u in tasks && u.id in t.dependencies && Placed(tasks, t, n)
    ensures exists m :: 0 <= m < n && Placed(tasks, u, m)
  {
    var r := RoundOf(tasks, u, n);
    var m := FirstRound(tasks, u);
    PlacedReady(tasks, u, m, r);
  }

  lemma FirstRound(tasks: seq<Task>, t: Task) returns (n: nat)
    requires !Stuck(tasks, t)
    ensures Placed(tasks, t, n)
  {
    n :| IsReady(t, Resolved(tasks, n));
    while n > 0 && IsReady(t, Resolved(tasks, n - 1))
      invariant IsReady(t, Resolved(tasks, n))
      decreases n
    {
      n := n - 1;
    }
  }
}

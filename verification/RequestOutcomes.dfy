/**
 Which allowed tools a request exposes, told from the table before it, the names discovery reports and
 the answers of the probes: the other half of `SchemaRouter.ExposedOutsideAllowed`.
 */
module RequestOutcomes {
  import opened Wrappers
  import opened Text
  import opened ToolMachine
  import opened ToolOutcomes
  import opened SchemaRouter
  import opened DiscoveryOutcomes

  /** Both tables have the same entry for this name, or none. */
  predicate SameAt(m: Machine, m': Machine, k: string) {
    (k in m' <==> k in m) && (k in m ==> m'[k] == m[k])
  }

  // ---------- The grants ----------

  /** The table just before the walk over the allowed set reaches place `n`. */
  function WalkIn(m: Machine, r: Request, n: nat): Machine
    requires n <= |r.order|
  {
    var m2 := IngestIn(DiscoverToolsIn(m, r.world), r.order, r.inventory, |r.order|);
    var m3 :=
      if r.wantsBrowser then BrowsersIn(m2, BROWSER_TOOLS, r.available, r.browserProbes, |BROWSER_TOOLS|) else m2;
    GrantAllIn(m3, r.order, r.allowed, r.probes, n)
  }

  /** A tool is exposed by the last grant made to it, exactly when it is cleared by then and on the list. */
  lemma {:induction false} GrantsOutcome(
      m: Machine, order: seq<string>, allowed: set<string>, probes: nat -> Probe, i: nat, n: nat)
    requires MachineOk(m) && i < n <= |order| && order[i] !in order[i + 1..]
    requires forall x :: x in order ==> Strip(x) == x
    ensures var k, m' := order[i], GrantAllIn(m, order, allowed, probes, n);
      var mi := GrantAllIn(m, order, allowed, probes, i);
      k in m' && (m'[k].state == Executable <==>
        Clears(mi, k, probes(i)) && (k in allowed || AuthorizeAlias(k) in allowed))
  {
    hide GrantOneIn, Strip, MachineOk, Clears, AuthorizeAlias;
    var names := set x | x in order;
    GrantAllKeeps(m, order, allowed, probes, n - 1, names);
    var m1 := GrantAllIn(m, order, allowed, probes, n - 1);
    GrantOneKeeps(m1, order[n - 1], allowed, probes(n - 1));
    if i == n - 1 {
      AuthorizeOutcome(m1, order[i], Some(allowed), None, false, probes(i));
    } else {
      GrantsOutcome(m, order, allowed, probes, i, n - 1);
      assert order[n - 1] == order[i + 1..][n - i - 2];
    }
  }

  /** Before its first place in the walk a tool is not touched by the grants. */
  lemma {:induction false} GrantsKeepOthers(
      m: Machine, order: seq<string>, allowed: set<string>, probes: nat -> Probe, n: nat, k: string)
    requires MachineOk(m) && n <= |order| && k !in order[..n]
    requires forall x :: x in order ==> Strip(x) == x
    ensures SameAt(m, GrantAllIn(m, order, allowed, probes, n), k)
  {
    hide GrantOneIn, Strip, MachineOk;
    if n > 0 {
      assert order[..n][..n - 1] == order[..n - 1] && order[..n][n - 1] == order[n - 1];
      GrantsKeepOthers(m, order, allowed, probes, n - 1, k);
      GrantAllKeeps(m, order, allowed, probes, n - 1, set x | x in order);
      GrantOneKeeps(GrantAllIn(m, order, allowed, probes, n - 1), order[n - 1], allowed, probes(n - 1));
    }
  }

  /**
   The other half of what a request exposes: an allowed tool is exposed exactly when it is cleared, by
   its state or by a probe that it may have and passes, at its last place in the walk.
   */
  lemma AllowedExposedIff(m: Machine, r: Request, i: nat)
    requires MachineOk(m) && Proper(r) && i < |r.order| && r.order[i] !in r.order[i + 1..]
    ensures r.order[i] in ExecutableNames(RequestIn(m, r)) <==>
      Clears(WalkIn(m, r, i), r.order[i], r.probes(i))
  {
    hide MachineOk, DiscoverToolsIn, IngestIn, BrowsersIn, GrantAllIn, Clears, AuthorizeAlias, Strip;
    WalkStarts(m, r);
    assert r.order[i] in r.order;
    GrantsOutcome(WalkIn(m, r, 0), r.order, r.allowed, r.probes, i, |r.order|);
    GrantsFromStart(m, r, i);
    GrantsFromStart(m, r, |r.order|);
  }

  lemma GrantsFromStart(m: Machine, r: Request, n: nat)
    requires n <= |r.order|
    ensures WalkIn(m, r, n) == GrantAllIn(WalkIn(m, r, 0), r.order, r.allowed, r.probes, n)
  {
    hide DiscoverToolsIn, IngestIn, BrowsersIn, GrantOneIn;
  }

  lemma WalkStarts(m: Machine, r: Request)
    requires MachineOk(m) && Proper(r)
    ensures MachineOk(WalkIn(m, r, 0))
  {
    hide MachineOk, DiscoverToolsIn, IngestIn, BrowsersIn, GrantOneIn, Strip;
    DiscoverToolsKeeps(m, r.world);
    var m1 := DiscoverToolsIn(m, r.world);
    IngestKeeps(m1, r.order, r.inventory, |r.order|, r.allowed);
    if r.wantsBrowser {
      BrowsersKeep(
        IngestIn(m1, r.order, r.inventory, |r.order|),
        BROWSER_TOOLS, r.available, r.browserProbes, |BROWSER_TOOLS|, r.allowed);
    }
  }

  // ---------- The inventory and the browser tools ----------

  /** Filing the inventory adds the catalogued names of the walk that are not known yet. */
  lemma {:induction false} IngestOutcome(m: Machine, order: seq<string>, inventory: set<string>, n: nat, k: string)
    requires n <= |order| && forall x :: x in order ==> Strip(x) == x
    ensures var m' := IngestIn(m, order, inventory, n);
      && (k in m' <==> k in m || (k in order[..n] && k in inventory))
      && (k in m ==> m'[k] == m[k])
      && (k in m' && k !in m ==> m'[k].state == Discovered && !m'[k].hasChecker)
  {
    if n > 0 {
      IngestOutcome(m, order, inventory, n - 1, k);
      assert order[..n] == order[..n - 1] + [order[n - 1]];
    }
  }

  lemma {:induction false} BrowsersKeepOthers(
      m: Machine, bs: seq<string>, available: nat -> bool, probes: nat -> Probe, n: nat, k: string)
    requires MachineOk(m) && n <= |bs| && k !in bs[..n] && forall b :: b in bs ==> Strip(b) == b
    ensures SameAt(m, BrowsersIn(m, bs, available, probes, n), k)
  {
    hide BrowserIn, Strip, MachineOk;
    if n > 0 {
      assert bs[..n][..n - 1] == bs[..n - 1] && bs[..n][n - 1] == bs[n - 1];
      BrowsersKeepOthers(m, bs, available, probes, n - 1, k);
      BrowsersKeep(m, bs, available, probes, n - 1, set b | b in bs);
      BrowserTouchesOne(
        BrowsersIn(m, bs, available, probes, n - 1), bs[n - 1], available(n - 1), probes(n - 1), {bs[n - 1]});
    }
  }

  /** Each browser tool is left as its own server and probe say. */
  lemma {:induction false} BrowsersOutcome(
      m: Machine, bs: seq<string>, available: nat -> bool, probes: nat -> Probe, n: nat, i: nat)
    requires MachineOk(m) && i < n <= |bs| && forall b :: b in bs ==> Strip(b) == b
    requires bs[i] !in bs[..i] && bs[i] !in bs[i + 1..]
    ensures var m', b := BrowsersIn(m, bs, available, probes, n), bs[i];
      SomeTool(m', b) == SomeTool(BrowserIn(m, b, available(i), probes(i)), b)
  {
    hide BrowserIn, Strip, MachineOk;
    var names := set b | b in bs;
    BrowsersKeep(m, bs, available, probes, n - 1, names);
    var m1 := BrowsersIn(m, bs, available, probes, n - 1);
    if i == n - 1 {
      BrowsersKeepOthers(m, bs, available, probes, i, bs[i]);
      BrowserReadsOwn(m, m1, bs[i], available(i), probes(i));
    } else {
      BrowsersOutcome(m, bs, available, probes, n - 1, i);
      assert bs[n - 1] == bs[i + 1..][n - i - 2];
      BrowserTouchesOne(m1, bs[n - 1], available(n - 1), probes(n - 1), {bs[n - 1]});
    }
  }

  function SomeTool(m: Machine, k: string): Option<Tool> {
    if k in m then Some(m[k]) else None
  }

  lemma BrowserReadsOwn(m: Machine, m': Machine, name: string, available: bool, probe: Probe)
    requires Strip(name) == name && SameAt(m, m', name)
    ensures SomeTool(BrowserIn(m', name, available, probe), name)
      == SomeTool(BrowserIn(m, name, available, probe), name)
  {
  }

  // ---------- A tool of the walk, from the table before the request ----------

  /** A name of the walk when discovery and the inventory are done. */
  lemma FiledOutcome(m: Machine, r: Request, k: string)
    requires MachineOk(m) && Proper(r) && k in r.order
    ensures var m2 := IngestIn(DiscoverToolsIn(m, r.world), r.order, r.inventory, |r.order|);
      && MachineOk(m2) && (k in m2 <==> k in m || k in Found(r.world) || k in r.inventory)
      && (k in m2 && m2[k].hasChecker <==> CheckerKept(m, r.world, k))
      && (k in m2 ==>
            m2[k].state ==
            if k in Found(r.world) || k !in m then Discovered
            else if m[k].state == Declared then (if k in r.world.resolvable then Discovered else Missing)
            else m[k].state)
  {
    hide MachineOk, DiscoverToolsIn, Strip, Found;
    DiscoverToolsKeeps(m, r.world);
    DiscoveryOutcome(m, r.world, k);
    IngestKeeps(DiscoverToolsIn(m, r.world), r.order, r.inventory, |r.order|, r.allowed);
    assert r.order[..|r.order|] == r.order;
    IngestOutcome(DiscoverToolsIn(m, r.world), r.order, r.inventory, |r.order|, k);
  }

  /** The table at the only place of a name in the walk has that name as it was when the walk began. */
  lemma OnceIsFirst(m: Machine, r: Request, i: nat)
    requires MachineOk(m) && Proper(r) && i < |r.order| && r.order[i] !in r.order[..i]
    ensures SameAt(WalkIn(m, r, 0), WalkIn(m, r, i), r.order[i])
  {
    hide MachineOk, WalkIn, Strip;
    WalkStarts(m, r);
    GrantsFromStart(m, r, i);
    GrantsKeepOthers(WalkIn(m, r, 0), r.order, r.allowed, r.probes, i, r.order[i]);
  }

  lemma ClearsReadsOwn(m: Machine, m': Machine, k: string, probe: Probe)
    requires SameAt(m, m', k)
    ensures Clears(m, k, probe) == Clears(m', k, probe)
  {
  }

  /** Without browser tools in its way, a name enters the walk as discovery and the inventory left it. */
  lemma PlainEntersAsFiled(m: Machine, r: Request, k: string)
    requires MachineOk(m) && Proper(r) && (r.wantsBrowser ==> k !in BROWSER_TOOLS)
    ensures SameAt(IngestIn(DiscoverToolsIn(m, r.world), r.order, r.inventory, |r.order|), WalkIn(m, r, 0), k)
  {
    hide MachineOk, DiscoverToolsIn, IngestIn, BrowsersIn, Strip;
    DiscoverToolsKeeps(m, r.world);
    var m1 := DiscoverToolsIn(m, r.world);
    IngestKeeps(m1, r.order, r.inventory, |r.order|, r.allowed);
    if r.wantsBrowser {
      var bs := BROWSER_TOOLS;
      assert bs[..|bs|] == bs;
      BrowsersKeepOthers(
        IngestIn(m1, r.order, r.inventory, |r.order|), bs, r.available, r.browserProbes, |bs|, k);
    }
  }

  /**
   An allowed tool, named once in the walk and not a wanted browser tool. Reported or unknown, it is
   exposed exactly when its probe passes; otherwise its state before the request decides first.
   */
  lemma ExposedOnce(m: Machine, r: Request, i: nat)
    requires MachineOk(m) && Proper(r) && i < |r.order|
    requires r.order[i] !in r.order[..i] && r.order[i] !in r.order[i + 1..]
    requires r.wantsBrowser ==> r.order[i] !in BROWSER_TOOLS
    ensures var k, w, probe := r.order[i], r.world, r.probes(i);
      var exposed, passes := k in ExecutableNames(RequestIn(m, r)), ProbePasses(CheckerKept(m, w, k), probe);
      && (exposed <==>
          if k in Found(w) || k !in m then passes
          else if m[k].state == Missing then false
          else if m[k].state == Declared then k in w.resolvable && passes
          else m[k].state in {Healthy, Authorized, Executable} || passes)
      && (k in Found(w) && (k !in m || !m[k].hasChecker) ==> (exposed <==> probe.primary))
  {
    hide MachineOk, DiscoverToolsIn, IngestIn, WalkIn, Strip, Found, ExecutableNames;
    var k := r.order[i];
    AllowedExposedIff(m, r, i);
    OnceIsFirst(m, r, i);
    FiledOutcome(m, r, k);
    PlainEntersAsFiled(m, r, k);
    FoundMeans(r.world, k);
    ClearsReadsOwn(
      IngestIn(DiscoverToolsIn(m, r.world), r.order, r.inventory, |r.order|), WalkIn(m, r, i), k, r.probes(i));
  }

  /** The four browser tools are told apart by the letter after their common prefix. */
  lemma BrowserToolsDiffer(j: nat)
    requires j < |BROWSER_TOOLS|
    ensures "browser" <= BROWSER_TOOLS[j]
    ensures BROWSER_TOOLS[j] !in BROWSER_TOOLS[..j] && BROWSER_TOOLS[j] !in BROWSER_TOOLS[j + 1..]
  {
    var bs := BROWSER_TOOLS;
    assert bs[0][8] == 'c' && bs[1][8] == 'i' && bs[2][8] == 'n' && bs[3][8] == 's';
    assert forall l :: 0 <= l < j ==> bs[..j][l] == bs[l];
    assert bs[1..] == [bs[1], bs[2], bs[3]] && bs[2..] == [bs[2], bs[3]] && bs[3..] == [bs[3]];
  }

  /** A wanted browser tool enters the walk as its own server and probe left it. */
  lemma BrowserEntersAsOffered(m: Machine, r: Request, j: nat)
    requires MachineOk(m) && Proper(r) && r.wantsBrowser && j < |BROWSER_TOOLS|
    ensures var m2, b := IngestIn(DiscoverToolsIn(m, r.world), r.order, r.inventory, |r.order|), BROWSER_TOOLS[j];
      && MachineOk(m2)
      && SameAt(BrowserIn(m2, b, r.available(j), r.browserProbes(j)), WalkIn(m, r, 0), b)
  {
    hide MachineOk, DiscoverToolsIn, IngestIn, BrowsersIn, BrowserIn, Strip;
    DiscoverToolsKeeps(m, r.world);
    var m1 := DiscoverToolsIn(m, r.world);
    IngestKeeps(m1, r.order, r.inventory, |r.order|, r.allowed);
    BrowserToolsDiffer(j);
    BrowsersOutcome(
      IngestIn(m1, r.order, r.inventory, |r.order|),
      BROWSER_TOOLS, r.available, r.browserProbes, |BROWSER_TOOLS|, j);
  }

  /**
   A wanted browser tool, named once in the walk: exposed exactly when its server runs and either its
   probe passes when it is offered, or only the checker fails then and the walk's own probe passes.
   */
  lemma BrowserExposedOnce(m: Machine, r: Request, i: nat, j: nat)
    requires MachineOk(m) && Proper(r) && r.wantsBrowser && i < |r.order| && j < |BROWSER_TOOLS|
    requires r.order[i] == BROWSER_TOOLS[j] && r.order[i] !in r.order[..i] && r.order[i] !in r.order[i + 1..]
    ensures var k, offered := r.order[i], r.browserProbes(j); var checker := CheckerKept(m, r.world, k);
      k in ExecutableNames(RequestIn(m, r)) <==>
        r.available(j) && (ProbePasses(checker, offered) || (offered.primary && ProbePasses(checker, r.probes(i))))
  {
    hide MachineOk, DiscoverToolsIn, IngestIn, WalkIn, BrowserIn, Strip, Found, ExecutableNames, Contains;
    var k := r.order[i];
    AllowedExposedIff(m, r, i);
    OnceIsFirst(m, r, i);
    FiledOutcome(m, r, k);
    BrowserEntersAsOffered(m, r, j);
    var m2 := IngestIn(DiscoverToolsIn(m, r.world), r.order, r.inventory, |r.order|);
    BrowserOutcome(m2, k, r.available(j), r.browserProbes(j));
    NamesBrowser(j);
    ClearsReadsOwn(BrowserIn(m2, k, r.available(j), r.browserProbes(j)), WalkIn(m, r, i), k, r.probes(i));
  }

  lemma NamesBrowser(j: nat)
    requires j < |BROWSER_TOOLS|
    ensures Contains(BROWSER_TOOLS[j], "browser")
  {
    BrowserToolsDiffer(j);
    var b := BROWSER_TOOLS[j];
    assert b == "" + "browser" + b[7..];
    ContainsIff(b, "browser");
  }
}

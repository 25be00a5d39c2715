/**
 What a discovery makes of each tool: told from the names it reports, the names it can resolve, and
 the table before it.
 */
module DiscoveryOutcomes {
  import opened Text
  import opened Wrappers
  import opened ToolMachine
  import opened SchemaRouter

  /** The registry and the servers report this name; servers do not report empty ones. */
  predicate Reports(w: World, name: string) {
    name in w.registry || (name in w.servers && name != "")
  }

  /** The tool has a checker before the discovery, and is reported under no other spelling. */
  ghost predicate CheckerKept(m: Machine, w: World, k: string) {
    k in m && m[k].hasChecker && forall n :: Reports(w, n) && Strip(n) == k ==> n == k
  }

  lemma {:induction false} NonEmptyHas(names: seq<string>, n: string)
    ensures n in NonEmpty(names) <==> n in names && n != ""
  {
    if names != [] {
      NonEmptyHas(names[1..], n);
    }
  }

  lemma FoundMeans(w: World, k: string)
    ensures k in Found(w) <==> exists n :: Reports(w, n) && Strip(n) == k
  {
    hide Strip, NonEmpty;
    FoundIs(w, k);
    forall n ensures n in NonEmpty(w.servers) <==> n in w.servers && n != "" {
      NonEmptyHas(w.servers, n);
    }
  }

  /** A list of reported names keeps a checker only under the tool's own spelling. */
  lemma {:induction false} ReportChecker(m: Machine, names: seq<string>, source: string, k: string)
    requires MachineOk(m)
    ensures var m' := ReportIn(m, names, source);
      k in m' && m'[k].hasChecker <==>
        k in m && m[k].hasChecker && forall n :: n in names && Strip(n) == k ==> n == k
    decreases |names|
  {
    if names != [] {
      DeclareKeeps(m, names[0], source);
      var m1 := if names[0] in m then m else DeclareIn(m, names[0], source);
      TransitionKeepsIff(m1, names[0], Discovered, None);
      ReportChecker(TransitionIn(m1, names[0], Discovered, None), names[1..], source, k);
      StripIdempotent(names[0]);
      assert names[0] in m ==> ToolOk(names[0], m[names[0]]);
      assert k in m ==> ToolOk(k, m[k]);
      assert forall n :: n in names <==> n == names[0] || n in names[1..];
    }
  }

  lemma ReportedMeans(w: World, k: string)
    requires Strip(k) == k && k in Reported(w)
    ensures k in Found(w)
  {
    hide Strip, NonEmpty;
    FoundIs(w, k);
  }

  /** After both lists of names, before the sweep: reported names are discovered and the rest is as it was. */
  lemma ReportsOutcome(m: Machine, w: World, k: string)
    requires MachineOk(m)
    ensures var m2 := ReportIn(ReportIn(m, w.registry, "builtin"), NonEmpty(w.servers), "mcp");
      && MachineOk(m2) && (k in m2 <==> k in m || k in Found(w))
      && (k in Found(w) ==> m2[k].state == Discovered && (m2[k].hasChecker <==> CheckerKept(m, w, k)))
      && (k in m && k !in Found(w) ==> m2[k] == m[k])
  {
    hide ReportIn, Found, Strip, NonEmpty, MachineOk;
    var m1 := ReportIn(m, w.registry, "builtin");
    ReportKeeps(m, w.registry, "builtin");
    ReportKeeps(m1, NonEmpty(w.servers), "mcp");
    ReportState(m, w.registry, "builtin", k);
    ReportState(m1, NonEmpty(w.servers), "mcp", k);
    ReportChecker(m, w.registry, "builtin", k);
    ReportChecker(m1, NonEmpty(w.servers), "mcp", k);
    FoundIs(w, k);
    forall n ensures Reports(w, n) <==> n in w.registry || n in NonEmpty(w.servers) {
      NonEmptyHas(w.servers, n);
    }
  }

  /**
   Discovery: what it reports is discovered, whatever it was before; a tool that was only declared and
   is not reported is discovered if it can be resolved and missing if not; every other tool stays as it is.
   */
  lemma DiscoveryOutcome(m: Machine, w: World, k: string)
    requires MachineOk(m)
    ensures var m' := DiscoverToolsIn(m, w);
      && (k in m' <==> k in m || k in Found(w))
      && (k in m' ==> (m'[k].hasChecker <==> CheckerKept(m, w, k)))
      && (k in m' ==>
            m'[k].state ==
            if k in Found(w) then Discovered
            else if m[k].state == Declared then (if k in w.resolvable then Discovered else Missing)
            else m[k].state)
      && (k in m && k !in Found(w) && m[k].state != Declared ==> m'[k] == m[k])
  {
    hide ReportIn, Found, Strip, NonEmpty, MachineOk, Reported;
    ReportsOutcome(m, w, k);
    FoundMeans(w, k);
    if k in m {
      EntriesAreNamed(m, k);
    }
    if k in Reported(w) && Strip(k) == k {
      ReportedMeans(w, k);
    }
  }

  lemma EntriesAreNamed(m: Machine, k: string)
    requires MachineOk(m) && k in m
    ensures Strip(k) == k
  {
    assert ToolOk(k, m[k]);
  }
}

/**
 What a skill's report says of each required tool, told from the table before the tool's check,
 its probe and the allowed list: which of the lists names it, and the flags of its status.
 */
module SkillOutcomes {
  import opened Wrappers
  import opened Text
  import opened ToolMachine
  import opened ToolOutcomes
  import opened SkillEnforcer
  import opened DiscoveryOutcomes
  import SchemaRouter

  /** A name leads to its own entry, and without one to the entry of its alias. */
  predicate LeadsTo(m: Machine, t: string, k: string) {
    k in m && (k == t || (t !in m && k == ToolAlias(t)))
  }

  /** Filesystem and terminal tools answer without their prefix, browser tools with another one. */
  lemma ToolAliasDropsPrefix(tool: string)
    requires '.' !in tool
    ensures ToolAlias(tool) == tool
    ensures ToolAlias("filesystem." + tool) == tool
    ensures ToolAlias("terminal." + tool) == tool
    ensures ToolAlias("browser." + tool) == "browser_" + tool
  {
    hide Replace;
    assert '.' in "filesystem." && '.' in "terminal." && '.' in "browser.";
    ReplaceTakes(tool, "filesystem.");
    ReplaceTakes(tool, "terminal.");
    ReplaceDotless(tool, "browser.", "browser_");
    ReplaceFront(tool, "browser.", "browser_");
    ReplaceSkips("terminal.", tool, "filesystem.", "");
    ReplaceSkips("browser.", tool, "filesystem.", "");
    ReplaceSkips("browser.", tool, "terminal.", "");
  }

  /** A tool in this state, with or without a checker, passes this probe. */
  predicate FoundHealthy(tool: Tool, probe: Probe) {
    tool.state !in {Declared, Missing} && ProbePasses(tool.hasChecker, probe)
  }

  predicate Listed(k: string, allowed: Option<set<string>>) {
    allowed == None || k in allowed.value || AuthorizeAlias(k) in allowed.value
  }

  /** The check of a name that leads nowhere. */
  lemma NowhereIsMissing(m: Machine, t: string, allowed: Option<set<string>>, probe: Probe)
    requires t !in m && ToolAlias(t) !in m
    ensures CheckIn(m, t, allowed, probe) == (m, IsMissing)
  {
    hide ToolAlias;
  }

  /** The check of an entry: what is said of it, and the state it is left in. */
  lemma EntryOutcome(m: Machine, t: string, k: string, allowed: Option<set<string>>, probe: Probe)
    requires MachineOk(m) && LeadsTo(m, t, k)
    ensures var (m', o) := CheckIn(m, t, allowed, probe);
      && (o == IsMissing <==> m[k].state == Missing)
      && (o == IsUnhealthy <==> m[k].state != Missing && !FoundHealthy(m[k], probe))
      && (o == IsUnauthorized <==> FoundHealthy(m[k], probe) && !Listed(k, allowed))
      && (o == IsExecutable <==> FoundHealthy(m[k], probe) && Listed(k, allowed))
      && k in m' && m'[k].state == (
           if o == IsExecutable then Executable
           else if o == IsUnauthorized then Unauthorized
           else if m[k].state in {Declared, Missing} then m[k].state
           else FailState(k, m[k].source, probe))
  {
    hide ToolAlias, VerifyIn, VerifyOk, AuthorizeIn, PromoteIn, MachineOk, Strip, ListAllows, AuthorizeAlias, Contains;
    if m[k].state != Missing {
      EntryIsNamed(m, t, k);
      VerifyOutcome(m, k, probe);
      VerifyKeeps(m, k, probe);
      if VerifyOk(m, k, probe) {
        var m1 := VerifyIn(m, k, probe);
        ListDecides(m1, k, allowed, probe);
        CheckEntryKeeps(m, t, k, allowed, probe);
      }
    }
  }

  // ---------- The report ----------

  lemma {:induction false} HavingIff(ts: seq<string>, outcomes: seq<Outcome>, o: Outcome, x: string)
    requires |ts| == |outcomes|
    ensures x in Having(ts, outcomes, o) <==> exists i :: 0 <= i < |ts| && ts[i] == x && outcomes[i] == o
  {
    if ts != [] {
      var n := |ts| - 1;
      HavingIff(ts[..n], outcomes[..n], o, x);
      assert forall i :: 0 <= i < n ==> ts[..n][i] == ts[i] && outcomes[..n][i] == outcomes[i];
    }
  }

  lemma EarlierDiffers(ts: seq<string>, i: nat, j: nat)
    requires i < j < |ts| && ts[j] !in ts[..j]
    ensures ts[i] != ts[j]
  {
    assert ts[..j][i] == ts[i];
  }

  /** Among names without repeats, a name is listed by its own outcome. */
  lemma HavingAt(ts: seq<string>, outcomes: seq<Outcome>, o: Outcome, i: nat)
    requires |ts| == |outcomes| && i < |ts| && forall j :: 0 <= j < |ts| ==> ts[j] !in ts[..j]
    ensures ts[i] in Having(ts, outcomes, o) <==> outcomes[i] == o
  {
    hide Having;
    HavingIff(ts, outcomes, o, ts[i]);
    forall j | 0 <= j < |ts| && j != i ensures ts[j] != ts[i] {
      if j < i {
        EarlierDiffers(ts, j, i);
      } else {
        EarlierDiffers(ts, i, j);
      }
    }
  }

  lemma {:induction false} OutcomeAt(
      m: Machine, ts: seq<string>, allowed: Option<set<string>>, probes: nat -> Probe, n: nat, i: nat)
    requires i < n <= |ts|
    ensures CheckFirst(m, ts, allowed, probes, n).1[i]
      == CheckIn(CheckFirst(m, ts, allowed, probes, i).0, ts[i], allowed, probes(i)).1
  {
    hide CheckIn;
    if i < n - 1 {
      OutcomeAt(m, ts, allowed, probes, n - 1, i);
    }
  }

  /** Checks keep which names there are, and an entry that none of them leads to. */
  lemma {:induction false} FirstChecksKeep(
      m: Machine, ts: seq<string>, allowed: Option<set<string>>, probes: nat -> Probe, n: nat, k: string)
    requires MachineOk(m) && n <= |ts| && k in m
    ensures var m' := CheckFirst(m, ts, allowed, probes, n).0;
      && MachineOk(m') && m'.Keys == m.Keys
      && ((forall j :: 0 <= j < n ==> !LeadsTo(m, ts[j], k)) ==> m'[k] == m[k])
  {
    hide CheckIn, MachineOk, ToolAlias, ListAllows, Shows, AuthorizeAlias;
    if n > 0 {
      FirstChecksKeep(m, ts, allowed, probes, n - 1, k);
      CheckKeeps(CheckFirst(m, ts, allowed, probes, n - 1).0, ts[n - 1], allowed, probes(n - 1));
    }
  }

  /**
   The report on a name that leads to entry `k`, told from that entry before the name's check, which is
   the entry at the start when no earlier name leads to it: the lists the name is on, and its status.
   */
  lemma ReportedAs(
      m: Machine, ts: seq<string>, allowed: Option<set<string>>, probes: nat -> Probe, r: Report, i: nat, k: string)
    requires MachineOk(m) && i < |ts| && forall j :: 0 <= j < |ts| ==> ts[j] !in ts[..j]
    requires ReportOf(r, ts, CheckFirst(m, ts, allowed, probes, |ts|).1) && LeadsTo(m, ts[i], k)
    ensures var t, before := ts[i], CheckFirst(m, ts, allowed, probes, i).0;
      && k in before && ((forall j :: 0 <= j < i ==> !LeadsTo(m, ts[j], k)) ==> before[k] == m[k])
      && var healthy, listed := FoundHealthy(before[k], probes(i)), Listed(k, allowed);
      && (t in r.missing <==> before[k].state == Missing)
      && (t in r.unhealthy <==> before[k].state != Missing && !healthy)
      && (t in r.unauthorized <==> healthy && !listed)
      && t in r.statuses
      && r.statuses[t] == Status(before[k].state != Missing, healthy, healthy && listed, healthy && listed)
  {
    hide CheckIn, CheckFirst, MachineOk, ToolAlias, Having, Listed, FoundHealthy, FailState;
    var outcomes := CheckFirst(m, ts, allowed, probes, |ts|).1;
    OutcomeAt(m, ts, allowed, probes, |ts|, i);
    FirstChecksKeep(m, ts, allowed, probes, i, k);
    EntryOutcome(CheckFirst(m, ts, allowed, probes, i).0, ts[i], k, allowed, probes(i));
    HavingAt(ts, outcomes, IsMissing, i);
    HavingAt(ts, outcomes, IsUnhealthy, i);
    HavingAt(ts, outcomes, IsUnauthorized, i);
    HealthyExists(CheckFirst(m, ts, allowed, probes, i).0[k], probes(i));
    assert r.statuses[ts[i]] == StatusOf(outcomes[i]);
  }

  lemma HealthyExists(tool: Tool, probe: Probe)
    ensures FoundHealthy(tool, probe) ==> tool.state != Missing
  {
  }

  /** The report on a name that leads nowhere. */
  lemma ReportedMissing(
      m: Machine, ts: seq<string>, allowed: Option<set<string>>, probes: nat -> Probe, r: Report, i: nat)
    requires MachineOk(m) && i < |ts| && forall j :: 0 <= j < |ts| ==> ts[j] !in ts[..j]
    requires ReportOf(r, ts, CheckFirst(m, ts, allowed, probes, |ts|).1)
    requires ts[i] !in m && ToolAlias(ts[i]) !in m
    ensures var t := ts[i];
      && t in r.missing && t !in r.unhealthy && t !in r.unauthorized
      && t in r.statuses && r.statuses[t] == Status(false, false, false, false)
  {
    hide CheckIn, CheckFirst, MachineOk, ToolAlias, Having;
    var outcomes := CheckFirst(m, ts, allowed, probes, |ts|).1;
    OutcomeAt(m, ts, allowed, probes, |ts|, i);
    CheckFirstKeeps(m, ts, allowed, probes, i);
    NowhereIsMissing(CheckFirst(m, ts, allowed, probes, i).0, ts[i], allowed, probes(i));
    HavingAt(ts, outcomes, IsMissing, i);
    HavingAt(ts, outcomes, IsUnhealthy, i);
    HavingAt(ts, outcomes, IsUnauthorized, i);
    assert r.statuses[ts[i]] == StatusOf(outcomes[i]);
  }

  /**
   The report on a tool that the check's own discovery reports, and that no earlier name leads to: it is
   never missing, unhealthy exactly when its probe fails, and unauthorized exactly when the probe passes
   but the list lacks it.
   */
  lemma DiscoveredIsReported(
      m: Machine, w: World, ts: seq<string>, allowed: Option<set<string>>, probes: nat -> Probe, r: Report, i: nat)
    requires MachineOk(m) && i < |ts| && forall j :: 0 <= j < |ts| ==> ts[j] !in ts[..j]
    requires ReportOf(r, ts, CheckFirst(DiscoverToolsIn(m, w), ts, allowed, probes, |ts|).1)
    requires ts[i] in SchemaRouter.Found(w) && forall j :: 0 <= j < i ==> ToolAlias(ts[j]) != ts[i]
    ensures var t, passes, listed :=
        ts[i], ProbePasses(CheckerKept(m, w, ts[i]), probes(i)), Listed(ts[i], allowed);
      && t !in r.missing && (t in r.unhealthy <==> !passes) && (t in r.unauthorized <==> passes && !listed)
      && t in r.statuses && r.statuses[t] == Status(true, passes, passes && listed, passes && listed)
  {
    hide CheckFirst, MachineOk, ToolAlias, Having, Listed, DiscoverToolsIn;
    DiscoverToolsKeeps(m, w);
    DiscoveryOutcome(m, w, ts[i]);
    forall j | 0 <= j < i ensures !LeadsTo(DiscoverToolsIn(m, w), ts[j], ts[i]) {
      EarlierDiffers(ts, j, i);
    }
    ReportedAs(DiscoverToolsIn(m, w), ts, allowed, probes, r, i, ts[i]);
  }
}

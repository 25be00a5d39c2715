/**
 The pre-flight check of a skill: each required tool is looked up, probed, authorized and
 promoted, in turn, on one shared machine. Two required names may lead to the same tool.
 */
module SkillEnforcer {
  import opened Wrappers
  import opened Text
  import opened ToolMachine
  import opened ToolObjects
  import opened ToolOutcomes

  datatype Outcome = IsMissing | IsUnhealthy | IsUnauthorized | IsExecutable

  datatype Status = Status(present: bool, healthy: bool, authorized: bool, executable: bool)

  datatype Report = Report(
    valid: bool,
    required: seq<string>,
    statuses: map<string, Status>,
    missing: seq<string>,
    unhealthy: seq<string>,
    unauthorized: seq<string>)

  function ToolAlias(name: string): string {
    Replace(Replace(Replace(name, "filesystem.", ""), "terminal.", ""), "browser.", "browser_")
  }

  /** The table entry a required name leads to. */
  function Entry(names: set<string>, t: string): Option<string> {
    if t in names then Some(t) else if ToolAlias(t) in names then Some(ToolAlias(t)) else None
  }

  predicate Exists(m: Machine, t: string) {
    var k := Entry(m.Keys, t);
    k.Some? && m[k.value].state != Missing
  }

  // ---------- One tool, and all of them, on values ----------

  function CheckIn(m: Machine, t: string, allowed: Option<set<string>>, probe: Probe): (Machine, Outcome) {
    if !Exists(m, t) then (m, IsMissing)
    else
      var k := Entry(m.Keys, t).value;
      var m1 := VerifyIn(m, k, probe);
      if !VerifyOk(m, k, probe) then (m1, IsUnhealthy)
      else
        var (m2, ok) := AuthorizeIn(m1, k, allowed, None, false, probe);
        if !ok then (m2, IsUnauthorized) else (PromoteIn(m2, k), IsExecutable)
  }

  /** The table and the outcomes after the first `n` tools; `probes` are the world's answers. */
  function CheckFirst(m: Machine, ts: seq<string>, allowed: Option<set<string>>, probes: nat -> Probe, n: nat)
    : (r: (Machine, seq<Outcome>))
    requires n <= |ts|
    ensures |r.1| == n
  {
    if n == 0 then (m, [])
    else
      var (m1, outcomes) := CheckFirst(m, ts, allowed, probes, n - 1);
      var (m2, outcome) := CheckIn(m1, ts[n - 1], allowed, probes(n - 1));
      (m2, outcomes + [outcome])
  }

  function StatusOf(o: Outcome): Status {
    Status(o != IsMissing, o == IsUnauthorized || o == IsExecutable, o == IsExecutable, o == IsExecutable)
  }

  /** The names whose outcome is `o`, in order. */
  function Having(ts: seq<string>, outcomes: seq<Outcome>, o: Outcome): seq<string>
    requires |ts| == |outcomes|
  {
    if ts == [] then []
    else
      var n := |ts| - 1;
      Having(ts[..n], outcomes[..n], o) + (if outcomes[n] == o then [ts[n]] else [])
  }

  lemma HavingSnoc(ts: seq<string>, outcomes: seq<Outcome>, t: string, last: Outcome, o: Outcome)
    requires |ts| == |outcomes|
    ensures Having(ts + [t], outcomes + [last], o) ==
      Having(ts, outcomes, o) + (if last == o then [t] else [])
  {
    assert (ts + [t])[..|ts|] == ts && (outcomes + [last])[..|ts|] == outcomes;
  }

  // ---------- What the check promises ----------

  /** What a check says of an entry, and the state it leaves the entry in, go together. */
  ghost predicate Shows(tool: Tool, o: Outcome) {
    && (o == IsUnhealthy <==> tool.state in {Declared, Missing, Unhealthy})
    && (o == IsUnauthorized <==> tool.state == Unauthorized)
    && (o == IsExecutable <==> tool.state == Executable)
  }

  lemma EntryIsNamed(m: Machine, t: string, k: string)
    requires MachineOk(m) && Exists(m, t) && Entry(m.Keys, t) == Some(k)
    ensures k in m && Strip(k) == k
  {
    assert ToolOk(k, m[k]);
  }

  /** A tool that has just been found healthy is authorized exactly when the list has it. */
  lemma ListDecides(m: Machine, k: string, allowed: Option<set<string>>, probe: Probe)
    requires MachineOk(m) && k in m && m[k].state == Healthy
    ensures var (m', ok) := AuthorizeIn(m, k, allowed, None, false, probe);
      && MachineOk(m') && SameElsewhere(m, m', k)
      && m'[k].state == (if ok then Authorized else Unauthorized)
      && (ok <==> ListAllows(k, allowed))
      && (ok <==> allowed == None || k in allowed.value || AuthorizeAlias(k) in allowed.value)
  {
    hide AuthorizeIn, KnownIn, Cleared, Strip, Stage, AuthorizeAlias;
    assert ToolOk(k, m[k]);
    AuthorizeKeeps(m, k, allowed, None, false, probe);
    AuthorizeOutcome(m, k, allowed, None, false, probe);
  }

  /** The check of an entry that exists: only that entry changes, and its new state tells the outcome. */
  lemma CheckEntryKeeps(m: Machine, t: string, k: string, allowed: Option<set<string>>, probe: Probe)
    requires MachineOk(m) && Exists(m, t) && Entry(m.Keys, t) == Some(k)
    ensures var (m', o) := CheckIn(m, t, allowed, probe);
      && MachineOk(m') && SameElsewhere(m, m', k)
      && o != IsMissing && Shows(m'[k], o)
      && (o == IsExecutable ==> ListAllows(k, allowed))
      && (o == IsUnauthorized ==> allowed.Some? && k !in allowed.value && AuthorizeAlias(k) !in allowed.value)
  {
    hide VerifyIn, AuthorizeIn, PromoteIn, Strip, MachineOk, ListAllows, VerifyOk, AuthorizeAlias, Exists, ToolAlias;
    EntryIsNamed(m, t, k);
    VerifyKeeps(m, k, probe);
    if VerifyOk(m, k, probe) {
      var m1 := VerifyIn(m, k, probe);
      ListDecides(m1, k, allowed, probe);
      var (m2, ok) := AuthorizeIn(m1, k, allowed, None, false, probe);
      if ok {
        PromoteAuthorized(m2, k);
      }
    }
  }

  /** One tool's check touches only its own entry, and ends executable exactly when it succeeds. */
  lemma CheckKeeps(m: Machine, t: string, allowed: Option<set<string>>, probe: Probe)
    requires MachineOk(m)
    ensures var (m', o) := CheckIn(m, t, allowed, probe);
      && MachineOk(m') && m'.Keys == m.Keys
      && (o == IsMissing <==> !Exists(m, t))
      && (forall x :: x in m && Entry(m.Keys, t) != Some(x) ==> m'[x] == m[x])
      && (o != IsMissing ==> var k := Entry(m.Keys, t).value;
           && Shows(m'[k], o)
           && (o == IsExecutable ==> ListAllows(k, allowed))
           && (o == IsUnauthorized ==> allowed.Some? && k !in allowed.value && AuthorizeAlias(k) !in allowed.value))
  {
    if Exists(m, t) {
      hide CheckIn, ListAllows, MachineOk, Strip, Shows, AuthorizeAlias;
      CheckEntryKeeps(m, t, Entry(m.Keys, t).value, allowed, probe);
    } else {
      hide VerifyIn, AuthorizeIn, PromoteIn, Strip, Stage, ListAllows, VerifyOk, Cleared, KnownIn, MachineOk;
    }
  }

  ghost predicate AllExecutable(outcomes: seq<Outcome>) {
    forall i :: 0 <= i < |outcomes| ==> outcomes[i] == IsExecutable
  }

  lemma AllExecutableSnoc(outcomes: seq<Outcome>, o: Outcome)
    ensures AllExecutable(outcomes + [o]) <==> AllExecutable(outcomes) && o == IsExecutable
  {
    var all := outcomes + [o];
    assert all[|outcomes|] == o;
    assert forall i :: 0 <= i < |outcomes| ==> all[i] == outcomes[i];
  }

  /** A successful check leaves earlier successes standing, even on the same entry. */
  lemma CheckKeepsReady(m: Machine, t: string, allowed: Option<set<string>>, probe: Probe, u: string)
    requires MachineOk(m) && (u == t || ReadyIn(m, u, allowed))
    ensures CheckIn(m, t, allowed, probe).1 == IsExecutable ==> ReadyIn(CheckIn(m, t, allowed, probe).0, u, allowed)
  {
    hide CheckIn, MachineOk, Strip, ListAllows;
    CheckKeeps(m, t, allowed, probe);
  }

  lemma {:induction false} CheckFirstKeeps(
      m: Machine, ts: seq<string>, allowed: Option<set<string>>, probes: nat -> Probe, n: nat)
    requires n <= |ts| && MachineOk(m)
    ensures var m' := CheckFirst(m, ts, allowed, probes, n).0; MachineOk(m') && m'.Keys == m.Keys
  {
    if n > 0 {
      CheckFirstKeeps(m, ts, allowed, probes, n - 1);
      CheckKeeps(CheckFirst(m, ts, allowed, probes, n - 1).0, ts[n - 1], allowed, probes(n - 1));
    }
  }

  /** When the first `n` checks succeed, the tools they checked are all ready afterwards. */
  lemma {:induction false} CheckFirstReady(
      m: Machine, ts: seq<string>, allowed: Option<set<string>>, probes: nat -> Probe, n: nat, i: nat)
    requires i < n <= |ts| && MachineOk(m)
    requires AllExecutable(CheckFirst(m, ts, allowed, probes, n).1)
    ensures ReadyIn(CheckFirst(m, ts, allowed, probes, n).0, ts[i], allowed)
    decreases n
  {
    hide ReadyIn, CheckIn, MachineOk, AllExecutable;
    var (m1, outcomes) := CheckFirst(m, ts, allowed, probes, n - 1);
    var (m2, o) := CheckIn(m1, ts[n - 1], allowed, probes(n - 1));
    AllExecutableSnoc(outcomes, o);
    CheckFirstKeeps(m, ts, allowed, probes, n - 1);
    if i < n - 1 {
      CheckFirstReady(m, ts, allowed, probes, n - 1, i);
    }
    CheckKeepsReady(m1, ts[n - 1], allowed, probes(n - 1), ts[i]);
  }

  /** The entry `t` leads to is executable, and on the allowed list. */
  ghost predicate ReadyIn(m: Machine, t: string, allowed: Option<set<string>>) {
    var k := Entry(m.Keys, t);
    k.Some? && m[k.value].state == Executable && ListAllows(k.value, allowed)
  }

  ghost predicate ReportOf(r: Report, ts: seq<string>, outcomes: seq<Outcome>) {
    && |ts| == |outcomes|
    && r.required == ts
    && r.missing == Having(ts, outcomes, IsMissing)
    && r.unhealthy == Having(ts, outcomes, IsUnhealthy)
    && r.unauthorized == Having(ts, outcomes, IsUnauthorized)
    && r.statuses.Keys == (set t | t in ts)
    && (forall i :: 0 <= i < |ts| ==> r.statuses[ts[i]] == StatusOf(outcomes[i]))
    && (r.valid <==> AllExecutable(outcomes))
  }

  lemma {:induction false} HavingNothing(ts: seq<string>, outcomes: seq<Outcome>, o: Outcome)
    requires |ts| == |outcomes|
    ensures Having(ts, outcomes, o) == [] <==> forall i :: 0 <= i < |ts| ==> outcomes[i] != o
  {
    if ts != [] {
      var n := |ts| - 1;
      HavingNothing(ts[..n], outcomes[..n], o);
      assert forall i :: 0 <= i < n ==> outcomes[..n][i] == outcomes[i];
      if outcomes[n] != o && Having(ts, outcomes, o) == [] {
        forall i | 0 <= i < |ts| ensures outcomes[i] != o {
          assert i < n ==> outcomes[..n][i] != o;
        }
      }
    }
  }

  /** How often `x` is listed with outcome `o`. */
  function CountOf(ts: seq<string>, outcomes: seq<Outcome>, o: Outcome, x: string): nat
    requires |ts| == |outcomes|
  {
    multiset(Having(ts, outcomes, o))[x]
  }

  lemma CountOfSnoc(ts: seq<string>, outcomes: seq<Outcome>, o: Outcome, x: string)
    requires |ts| == |outcomes| && ts != []
    ensures CountOf(ts, outcomes, o, x) ==
      CountOf(ts[..|ts| - 1], outcomes[..|ts| - 1], o, x)
      + (if outcomes[|ts| - 1] == o && ts[|ts| - 1] == x then 1 else 0)
  {
  }

  lemma NothingCounted(x: string)
    ensures forall o :: CountOf([], [], o, x) == 0
  {
  }

  lemma MultisetLast(ts: seq<string>, x: string)
    requires ts != []
    ensures multiset(ts)[x] == multiset(ts[..|ts| - 1])[x] + if ts[|ts| - 1] == x then 1 else 0
  {
    assert ts == ts[..|ts| - 1] + [ts[|ts| - 1]];
  }

  lemma {:induction false} CountsAddUp(ts: seq<string>, outcomes: seq<Outcome>, x: string)
    requires |ts| == |outcomes|
    ensures CountOf(ts, outcomes, IsMissing, x) + CountOf(ts, outcomes, IsUnhealthy, x)
      + CountOf(ts, outcomes, IsUnauthorized, x) + CountOf(ts, outcomes, IsExecutable, x) == multiset(ts)[x]
  {
    hide CountOf;
    if ts == [] {
      NothingCounted(x);
    } else {
      var n := |ts| - 1;
      CountsAddUp(ts[..n], outcomes[..n], x);
      MultisetLast(ts, x);
      CountOfSnoc(ts, outcomes, IsMissing, x);
      CountOfSnoc(ts, outcomes, IsUnhealthy, x);
      CountOfSnoc(ts, outcomes, IsUnauthorized, x);
      CountOfSnoc(ts, outcomes, IsExecutable, x);
    }
  }

  /** The report's three lists and the executable tools split the required tools, each counted once. */
  lemma ReportPartitions(r: Report, ts: seq<string>, outcomes: seq<Outcome>, x: string)
    requires ReportOf(r, ts, outcomes)
    ensures multiset(r.missing)[x] + multiset(r.unhealthy)[x] + multiset(r.unauthorized)[x]
      + multiset(Having(ts, outcomes, IsExecutable))[x] == multiset(ts)[x]
  {
    CountsAddUp(ts, outcomes, x);
  }

  /** The report says valid exactly when nothing is missing, unhealthy or unauthorized. */
  lemma ValidIffNothingListed(r: Report, ts: seq<string>, outcomes: seq<Outcome>)
    requires ReportOf(r, ts, outcomes)
    ensures r.valid <==> r.missing == [] && r.unhealthy == [] && r.unauthorized == []
  {
    HavingNothing(ts, outcomes, IsMissing);
    HavingNothing(ts, outcomes, IsUnhealthy);
    HavingNothing(ts, outcomes, IsUnauthorized);
    if r.missing == [] && r.unhealthy == [] && r.unauthorized == [] {
      forall i | 0 <= i < |outcomes| ensures outcomes[i] == IsExecutable {
        assert outcomes[i] != IsMissing && outcomes[i] != IsUnhealthy && outcomes[i] != IsUnauthorized;
      }
    }
  }

  /**
   When the report says valid, every required tool's entry is executable in the final table,
   has earned it, and is on the allowed list, also when several names share one entry.
   */
  lemma ValidMeansExecutable(
      m: Machine, w: World, ts: seq<string>, allowed: Option<set<string>>, probes: nat -> Probe, r: Report, t: string)
    requires MachineOk(m) && t in ts
    requires ReportOf(r, ts, CheckFirst(DiscoverToolsIn(m, w), ts, allowed, probes, |ts|).1) && r.valid
    ensures var final := CheckFirst(DiscoverToolsIn(m, w), ts, allowed, probes, |ts|).0;
      && ReadyIn(final, t, allowed)
      && Earned(final[Entry(final.Keys, t).value].history)
  {
    hide Strip, CheckIn, CheckFirst, Stage, Earned, DiscoverToolsIn, ListAllows;
    var start := DiscoverToolsIn(m, w);
    DiscoverToolsKeeps(m, w);
    CheckFirstKeeps(start, ts, allowed, probes, |ts|);
    var final := CheckFirst(start, ts, allowed, probes, |ts|).0;
    var i :| 0 <= i < |ts| && ts[i] == t;
    CheckFirstReady(start, ts, allowed, probes, |ts|, i);
    var k := Entry(final.Keys, t).value;
    assert ToolOk(k, final[k]);
    StageTwoIsEarned(final[k].history);
  }

  // ---------- The method ----------

  function Record(r: Report, t: string, o: Outcome): Report {
    Report(
      r.valid && o == IsExecutable,
      r.required + [t],
      r.statuses[t := StatusOf(o)],
      r.missing + (if o == IsMissing then [t] else []),
      r.unhealthy + (if o == IsUnhealthy then [t] else []),
      r.unauthorized + (if o == IsUnauthorized then [t] else []))
  }

  lemma RecordKeeps(r: Report, ts: seq<string>, outcomes: seq<Outcome>, t: string, o: Outcome)
    requires ReportOf(r, ts, outcomes) && t !in ts
    ensures ReportOf(Record(r, t, o), ts + [t], outcomes + [o])
  {
    HavingSnoc(ts, outcomes, t, o, IsMissing);
    HavingSnoc(ts, outcomes, t, o, IsUnhealthy);
    HavingSnoc(ts, outcomes, t, o, IsUnauthorized);
    AllExecutableSnoc(outcomes, o);
    assert Record(r, t, o).statuses.Keys == set u | u in ts + [t];
  }

  /** Checks one required tool on the machine, and says how it went. */
  method CheckTool(machine: ToolStateMachine, t: string, allowed: Option<set<string>>, probe: Probe)
    returns (o: Outcome)
    requires machine.Valid() && MachineOk(machine.Model())
    modifies machine, machine.tools.Values
    ensures machine.Valid() && fresh(machine.tools.Values - old(machine.tools.Values))
    ensures (machine.Model(), o) == CheckIn(old(machine.Model()), t, allowed, probe)
  {
    ghost var m := machine.Model();
    assert m.Keys == machine.tools.Keys;
    var entry := Entry(machine.tools.Keys, t);
    if entry == None {
      return IsMissing;
    }
    var k := entry.value;
    var managed := machine.tools[k];
    assert m[k] == managed.View() && ToolOk(k, m[k]);
    if managed.state == Missing {
      return IsMissing;
    }
    var healthy := machine.VerifyHealth(managed.name, probe);
    if !healthy {
      return IsUnhealthy;
    }
    ghost var m1 := machine.Model();
    VerifyKeeps(m, k, probe);
    var authorized := machine.Authorize(managed.name, allowed, None, false, probe);
    if !authorized {
      return IsUnauthorized;
    }
    AuthorizeKeeps(m1, k, allowed, None, false, probe);
    assert machine.Model()[k] == managed.View();
    if managed.state == Authorized {
      machine.PromoteToExecutable(managed.name);
    }
    o := IsExecutable;
  }

  /**
   The whole check. `required` lists the required tools without repeats; `world` and `probes`
   are what discovery and the health probes find.
   */
  method ValidateSkill(
      machine: ToolStateMachine, required: seq<string>, allowed: Option<set<string>>,
      world: World, probes: nat -> Probe)
    returns (report: Report)
    requires machine.Valid() && MachineOk(machine.Model())
    requires forall i :: 0 <= i < |required| ==> required[i] !in required[..i]
    modifies machine, machine.tools.Values
    ensures machine.Valid() && MachineOk(machine.Model())
    ensures required == [] ==> machine.Model() == old(machine.Model())
    ensures var run := CheckFirst(DiscoverToolsIn(old(machine.Model()), world), required, allowed, probes, |required|);
      ReportOf(report, required, run.1) && (required != [] ==> machine.Model() == run.0)
  {
    if required == [] {
      return Report(true, [], map[], [], [], []);
    }
    DiscoverToolsKeeps(machine.Model(), world);
    machine.DiscoverTools(world);
    ghost var outcomes;
    report, outcomes := CheckTools(machine, required, allowed, probes);
    assert required[..|required|] == required;
  }

  /** After `n` turns of the loop: the table, the outcomes and the report agree with the functions. */
  ghost predicate AfterTurns(
    start: Machine, ts: seq<string>, allowed: Option<set<string>>, probes: nat -> Probe, n: nat,
    m: Machine, outcomes: seq<Outcome>, report: Report)
    requires n <= |ts|
  {
    && MachineOk(m)
    && CheckFirst(start, ts, allowed, probes, n) == (m, outcomes)
    && ReportOf(report, ts[..n], outcomes)
  }

  lemma BeforeTurns(start: Machine, ts: seq<string>, allowed: Option<set<string>>, probes: nat -> Probe)
    requires MachineOk(start)
    ensures AfterTurns(start, ts, allowed, probes, 0, start, [], Report(true, [], map[], [], [], []))
  {
  }

  lemma TurnsKeepRule(
    start: Machine, ts: seq<string>, allowed: Option<set<string>>, probes: nat -> Probe, n: nat,
    m: Machine, outcomes: seq<Outcome>, report: Report)
    requires n <= |ts| && AfterTurns(start, ts, allowed, probes, n, m, outcomes, report)
    ensures MachineOk(m)
  {
  }

  lemma NextTurn(
    start: Machine, ts: seq<string>, allowed: Option<set<string>>, probes: nat -> Probe, n: nat,
    m: Machine, outcomes: seq<Outcome>, report: Report)
    requires n < |ts| && ts[n] !in ts[..n]
    requires AfterTurns(start, ts, allowed, probes, n, m, outcomes, report)
    ensures var (m', o) := CheckIn(m, ts[n], allowed, probes(n));
      AfterTurns(start, ts, allowed, probes, n + 1, m', outcomes + [o], Record(report, ts[n], o))
  {
    hide CheckIn, ReportOf, Record;
    CheckKeeps(m, ts[n], allowed, probes(n));
    assert ts[..n + 1] == ts[..n] + [ts[n]];
    RecordKeeps(report, ts[..n], outcomes, ts[n], CheckIn(m, ts[n], allowed, probes(n)).1);
  }

  /** The loop over the required tools. */
  method CheckTools(
      machine: ToolStateMachine, required: seq<string>, allowed: Option<set<string>>, probes: nat -> Probe)
    returns (report: Report, ghost outcomes: seq<Outcome>)
    requires machine.Valid() && MachineOk(machine.Model())
    requires forall i :: 0 <= i < |required| ==> required[i] !in required[..i]
    modifies machine, machine.tools.Values
    ensures machine.Valid() && fresh(machine.tools.Values - old(machine.tools.Values))
    ensures AfterTurns(
      old(machine.Model()), required, allowed, probes, |required|, machine.Model(), outcomes, report)
  {
    hide CheckIn, Record, AfterTurns;
    ghost var start := machine.Model();
    report := Report(true, [], map[], [], [], []);
    outcomes := [];
    BeforeTurns(start, required, allowed, probes);
    for i := 0 to |required|
      invariant machine.Valid() && fresh(machine.tools.Values - old(machine.tools.Values))
      invariant AfterTurns(start, required, allowed, probes, i, machine.Model(), outcomes, report)
    {
      TurnsKeepRule(start, required, allowed, probes, i, machine.Model(), outcomes, report);
      NextTurn(start, required, allowed, probes, i, machine.Model(), outcomes, report);
      var o := CheckTool(machine, required[i], allowed, probes(i));
      report := Record(report, required[i], o);
      outcomes := outcomes + [o];
    }
  }
}

/**
 The deterministic verification matrix: six gates over the test output, the static report and
 the build report. The analysers behind the gates are parameters; how their results become a
 verdict is modelled.
 */
module GroundTruth {
  import opened Pigeonhole
  import opened Wrappers

  /** A field of a dictionary that may be missing or hold None. */
  datatype Field<+T> = Missing | Null | Given(value: T)

  /** The test output the gates and the review agent read; a pipeline report says whether it passed. */
  datatype TestInfo = TestInfo(
    executionSuccess: Field<bool>, exitCode: Field<int>, testsFailed: int,
    tautologicalWarnings: nat, tautologies: nat, tautologicalCount: Option<nat>,
    pipeline: Option<bool>)

  /** Tests count as run cleanly unless something says otherwise; a stored None is not a success. */
  predicate RanCleanly(t: TestInfo) {
    t.executionSuccess in {Missing, Given(true)} && t.exitCode in {Missing, Given(0)}
  }

  datatype Gate = Gate(passed: bool, blocking: bool)

  predicate Blocks(g: Gate) {
    !g.passed && g.blocking
  }

  /** What the analysers report. */
  datatype Analysis = Analysis(
    staticReport: Option<bool>, analyzerPassed: bool,
    dependencyRegression: Option<bool>, baseline: Option<TestInfo>,
    coverage: Coverage, spec: Traceability)

  datatype Coverage = Coverage(skipped: bool, passed: bool, measured: bool, percentage: real, linesChanged: int)

  datatype Traceability = Traceability(skipped: bool, allVerified: bool, percentage: real)

  function StaticGate(a: Analysis): Gate {
    Gate(if a.staticReport.Some? then a.staticReport.value else a.analyzerPassed, true)
  }

  /** A pipeline report decides alone; without one the test run does. */
  function BuildGate(t: TestInfo): Gate {
    Gate(if t.pipeline.Some? then t.pipeline.value else RanCleanly(t), true)
  }

  function RegressionGate(t: TestInfo, a: Analysis): Gate {
    if a.dependencyRegression == Some(false) then Gate(false, true)
    else if a.baseline.None? then Gate(true, true)
    else Gate(!(RanCleanly(a.baseline.value) && !RanCleanly(t)), true)
  }

  function CoverageGate(c: Coverage): Gate {
    if c.skipped then Gate(true, false)
    else Gate(c.passed, c.measured && c.percentage == 0.0 && c.linesChanged > 0)
  }

  function SpecGate(s: Traceability): Gate {
    if s.skipped then Gate(true, false) else Gate(s.allVerified, s.percentage < 50.0)
  }

  function TautologyGate(t: TestInfo): Gate {
    var warnings := if t.tautologicalWarnings > 0 then t.tautologicalWarnings else t.tautologies;
    var count := if t.tautologicalCount.Some? then t.tautologicalCount.value else warnings;
    Gate(warnings == 0 && count == 0, true)
  }

  datatype GateName =
    STATIC_ANALYSIS | BUILD_PIPELINE | BASELINE_REGRESSIONS | DIFF_COVERAGE | SPEC_TRACEABILITY | ANTI_TAUTOLOGY

  datatype Report = Report(gates: map<GateName, Gate>, blockingFailures: seq<GateName>, passed: bool)

  function GateOf(t: TestInfo, a: Analysis, name: GateName): Gate {
    match name
    case STATIC_ANALYSIS => StaticGate(a)
    case BUILD_PIPELINE => BuildGate(t)
    case BASELINE_REGRESSIONS => RegressionGate(t, a)
    case DIFF_COVERAGE => CoverageGate(a.coverage)
    case SPEC_TRACEABILITY => SpecGate(a.spec)
    case ANTI_TAUTOLOGY => TautologyGate(t)
  }

  /** A report holds every gate and lists exactly the blocking failures. */
  ghost predicate ReportsOn(r: Report, t: TestInfo, a: Analysis) {
    && (forall n: GateName :: n in r.gates && r.gates[n] == GateOf(t, a, n))
    && (forall n: GateName :: n in r.blockingFailures <==> Blocks(GateOf(t, a, n)))
    && Distinct(r.blockingFailures)
    && (r.passed <==> r.blockingFailures == [])
  }

  method Evaluate(t: TestInfo, a: Analysis) returns (r: Report)
    ensures ReportsOn(r, t, a)
  {
    var gates: map<GateName, Gate> := map[];
    var failures: seq<GateName> := [];
    var order := [
      STATIC_ANALYSIS, BUILD_PIPELINE, BASELINE_REGRESSIONS, DIFF_COVERAGE, SPEC_TRACEABILITY, ANTI_TAUTOLOGY];
    for i := 0 to |order|
      invariant forall n: GateName :: n in order[..i] <==> n in gates
      invariant forall n: GateName :: n in gates ==> gates[n] == GateOf(t, a, n)
      invariant forall n: GateName :: n in failures <==> n in gates && Blocks(GateOf(t, a, n))
      invariant Distinct(failures)
    {
      var gate := GateOf(t, a, order[i]);
      gates := gates[order[i] := gate];
      if !gate.passed && gate.blocking {
        failures := failures + [order[i]];
      }
    }
    forall n: GateName ensures n in gates {
      assert n in order[..|order|] by {
        match n
        case STATIC_ANALYSIS => assert order[0] == n;
        case BUILD_PIPELINE => assert order[1] == n;
        case BASELINE_REGRESSIONS => assert order[2] == n;
        case DIFF_COVERAGE => assert order[3] == n;
        case SPEC_TRACEABILITY => assert order[4] == n;
        case ANTI_TAUTOLOGY => assert order[5] == n;
      }
    }
    r := Report(gates, failures, failures == []);
  }

  /** The matrix passes exactly when no gate fails and blocks. */
  lemma PassedIffNoneBlocks(r: Report, t: TestInfo, a: Analysis)
    requires ReportsOn(r, t, a)
    ensures r.passed <==> forall n: GateName :: !Blocks(GateOf(t, a, n))
  {
    if r.blockingFailures != [] {
      assert r.blockingFailures[0] in r.blockingFailures;
    }
  }

  /** The matrix passes exactly when each of its six subjects is in order. */
  lemma PassedMeans(r: Report, t: TestInfo, a: Analysis)
    requires ReportsOn(r, t, a)
    ensures var c := a.coverage;
      r.passed <==>
        && (if a.staticReport.Some? then a.staticReport.value else a.analyzerPassed)
        && (if t.pipeline.Some? then t.pipeline.value else RanCleanly(t))
        && a.dependencyRegression != Some(false)
        && (a.baseline.Some? && RanCleanly(a.baseline.value) ==> RanCleanly(t))
        && !(!c.skipped && !c.passed && c.measured && c.percentage == 0.0 && c.linesChanged > 0)
        && !(!a.spec.skipped && !a.spec.allVerified && a.spec.percentage < 50.0)
        && t.tautologicalWarnings == 0 && t.tautologies == 0 && t.tautologicalCount in {None, Some(0)}
  {
    PassedIffNoneBlocks(r, t, a);
    assert !Blocks(GateOf(t, a, STATIC_ANALYSIS)) <==> StaticGate(a).passed;
    assert !Blocks(GateOf(t, a, BUILD_PIPELINE)) <==> BuildGate(t).passed;
    assert !Blocks(GateOf(t, a, BASELINE_REGRESSIONS)) <==> RegressionGate(t, a).passed;
    assert !Blocks(GateOf(t, a, DIFF_COVERAGE)) <==> !Blocks(CoverageGate(a.coverage));
    assert !Blocks(GateOf(t, a, SPEC_TRACEABILITY)) <==> !Blocks(SpecGate(a.spec));
    assert !Blocks(GateOf(t, a, ANTI_TAUTOLOGY)) <==> TautologyGate(t).passed;
    SixGates(t, a);
  }

  lemma SixGates(t: TestInfo, a: Analysis)
    ensures (forall n: GateName :: !Blocks(GateOf(t, a, n))) <==>
      && !Blocks(GateOf(t, a, STATIC_ANALYSIS)) && !Blocks(GateOf(t, a, BUILD_PIPELINE))
      && !Blocks(GateOf(t, a, BASELINE_REGRESSIONS)) && !Blocks(GateOf(t, a, DIFF_COVERAGE))
      && !Blocks(GateOf(t, a, SPEC_TRACEABILITY)) && !Blocks(GateOf(t, a, ANTI_TAUTOLOGY))
  {
    hide GateOf, Blocks;
    forall n: GateName
      ensures Blocks(GateOf(t, a, n)) ==>
        || Blocks(GateOf(t, a, STATIC_ANALYSIS)) || Blocks(GateOf(t, a, BUILD_PIPELINE))
        || Blocks(GateOf(t, a, BASELINE_REGRESSIONS)) || Blocks(GateOf(t, a, DIFF_COVERAGE))
        || Blocks(GateOf(t, a, SPEC_TRACEABILITY)) || Blocks(GateOf(t, a, ANTI_TAUTOLOGY))
    {
      match n {
        case STATIC_ANALYSIS =>
        case BUILD_PIPELINE =>
        case BASELINE_REGRESSIONS =>
        case DIFF_COVERAGE =>
        case SPEC_TRACEABILITY =>
        case ANTI_TAUTOLOGY =>
      }
    }
  }
}

/**
 The review agent's verdict: the model's answer or, without one, an objective score, subject to a
 veto by the deterministic checks.
 */
module Reviewer {
  import opened GroundTruth
  import opened Text
  import opened Wrappers

  datatype Verdict = PASS | FAIL | UNDECIDED

  datatype Agent = CODER | TESTER | Other(name: string)

  /** A review: its verdict text, score, the components of its issues, and the agent asked to fix them. */
  datatype Review = Review(verdict: string, score: Option<int>, issues: Option<seq<string>>, target: Option<Agent>)

  /** The model's output: a review in the deliverables, one at the top level, or neither. */
  datatype Answer = Answer(deliverables: Option<Review>, top: Option<Review>)

  predicate TestFailure(t: TestInfo) {
    t.executionSuccess == Given(false) || t.exitCode !in {Missing, Given(0)} || t.testsFailed > 0
  }

  predicate StaticFailed(a: Analysis) {
    a.staticReport == Some(false)
  }

  predicate PipelineFailed(t: TestInfo) {
    t.pipeline == Some(false)
  }

  /** The verdict text says PASS. */
  predicate SaysPass(verdict: string) {
    Contains(Strip(Upper(verdict)), "PASS")
  }

  /** The verdict text says PASS exactly when those four letters occur in it, in any case. */
  lemma SaysPassMeans(verdict: string)
    ensures SaysPass(verdict) <==> exists front: string, back: string :: Strip(Upper(verdict)) == front + "PASS" + back
  {
    ContainsIff(Strip(Upper(verdict)), "PASS");
  }

  predicate NothingFailed(t: TestInfo, a: Analysis) {
    !PipelineFailed(t) && !StaticFailed(a) && !TestFailure(t) && t.tautologicalWarnings == 0
  }

  // ---------- The objective score ----------

  function Deductions(t: TestInfo, a: Analysis): nat {
    (if PipelineFailed(t) then 50 else 0) + (if StaticFailed(a) then 40 else 0)
      + (if TestFailure(t) then 40 else 0) + (if t.tautologicalWarnings > 0 then 35 else 0)
  }

  /** What each kind of failure costs when it is the only one. */
  lemma OneFailureDeducts(t: TestInfo, a: Analysis)
    ensures var taut := t.tautologicalWarnings > 0;
      && (PipelineFailed(t) && !StaticFailed(a) && !TestFailure(t) && !taut ==> Deductions(t, a) == 50)
      && (!PipelineFailed(t) && StaticFailed(a) && !TestFailure(t) && !taut ==> Deductions(t, a) == 40)
      && (!PipelineFailed(t) && !StaticFailed(a) && TestFailure(t) && !taut ==> Deductions(t, a) == 40)
      && (!PipelineFailed(t) && !StaticFailed(a) && !TestFailure(t) && taut ==> Deductions(t, a) == 35)
      && (Deductions(t, a) >= 100 ==> PipelineFailed(t) || (StaticFailed(a) && TestFailure(t) && taut))
  {
    hide PipelineFailed, StaticFailed, TestFailure;
  }

  function Repeated(component: string, n: nat): seq<string> {
    seq(n, _ => component)
  }

  /** One issue for each kind of failure, and one for each tautological assertion. */
  function FailureIssues(t: TestInfo, a: Analysis): seq<string> {
    (if PipelineFailed(t) then ["BuildPipeline"] else []) + (if StaticFailed(a) then ["StaticVerification"] else [])
      + (if TestFailure(t) then ["TestSuite"] else []) + Repeated("TestIntegrity", t.tautologicalWarnings)
  }

  /** The score, issues and agent when the model gives no verdict. */
  method ScoreObjectively(t: TestInfo, a: Analysis) returns (r: Review)
    ensures r.score == Some(if Deductions(t, a) > 100 then 0 else 100 - Deductions(t, a))
    ensures r.score.value >= 80 <==> NothingFailed(t, a)
    ensures r.verdict == if NothingFailed(t, a) then "PASS" else "FAIL"
    ensures r.issues == Some(FailureIssues(t, a))
    ensures r.target == Some(if t.tautologicalWarnings > 0 then TESTER else CODER)
  {
    hide Contains, Strip, Upper;
    assert Repeated("TestIntegrity", 0) == [];
    var score, target := 100, CODER;
    var issues: seq<string> := [];
    if PipelineFailed(t) {
      score, target, issues := score - 50, CODER, issues + ["BuildPipeline"];
    }
    if StaticFailed(a) {
      score, target, issues := score - 40, CODER, issues + ["StaticVerification"];
    }
    if TestFailure(t) {
      score, target, issues := score - 40, CODER, issues + ["TestSuite"];
    }
    if t.tautologicalWarnings > 0 {
      score, target := score - 35, TESTER;
      ghost var before := issues;
      for i := 0 to t.tautologicalWarnings
        invariant issues == before + Repeated("TestIntegrity", i)
      {
        issues := issues + ["TestIntegrity"];
      }
    }
    score := if score > 100 then 100 else if score < 0 then 0 else score;
    var verdict := if score >= 80 && !TestFailure(t) && !StaticFailed(a) && t.tautologicalWarnings == 0
        && !PipelineFailed(t) then "PASS" else "FAIL";
    assert issues == FailureIssues(t, a);
    r := Review(verdict, Some(score), Some(issues), Some(target));
  }

  // ---------- The verdict ----------

  /** The review that is judged: the model's, from the deliverables first, or the objective one. */
  function Claimed(answer: Answer, objective: Review): Review {
    if answer.deliverables.Some? then answer.deliverables.value
    else if answer.top.Some? then answer.top.value
    else objective
  }

  /** Whom the veto asks for a fix. */
  function VetoTarget(t: TestInfo, a: Analysis, gates: map<GateName, Gate>): Agent {
    if TestFailure(t) then CODER
    else if t.tautologicalWarnings > 0 then TESTER
    else if StaticFailed(a) then CODER
    else if SPEC_TRACEABILITY !in gates || !gates[SPEC_TRACEABILITY].passed then TESTER
    else CODER
  }

  /** The tester is asked for a fix exactly when no test failed and the tests' own quality is at fault. */
  lemma VetoAsksTester(t: TestInfo, a: Analysis, report: Report)
    requires ReportsOn(report, t, a)
    ensures VetoTarget(t, a, report.gates) in {CODER, TESTER}
    ensures VetoTarget(t, a, report.gates) == TESTER <==>
      && !TestFailure(t)
      && (t.tautologicalWarnings > 0 || (a.staticReport != Some(false) && !a.spec.skipped && !a.spec.allVerified))
  {
    hide TestFailure;
    assert report.gates[SPEC_TRACEABILITY] == SpecGate(a.spec);
  }

  /** The verdict after the veto, for a claimed verdict text. */
  function VerdictText(claimed: string, t: TestInfo, report: Report): string {
    if SaysPass(claimed) && report.passed && !TestFailure(t) then "PASS" else "FAIL"
  }

  /** The issue that says why the verdict was overridden, besides the blocking gates. */
  function VetoIssue(t: TestInfo, a: Analysis): seq<string> {
    if TestFailure(t) then ["TestSuite"]
    else if t.tautologicalWarnings > 0 then ["TestIntegrity"]
    else if StaticFailed(a) then ["StaticVerification"]
    else []
  }

  /** A claimed review after the veto: a score of at most 45, every blocking gate as an issue, and an agent. */
  function Vetoed(claimed: Review, t: TestInfo, a: Analysis, report: Report): Review {
    var score := if claimed.score.Some? then claimed.score.value else 90;
    var issues := if claimed.issues.Some? then claimed.issues.value else [];
    Review("FAIL", Some(if score < 45 then score else 45),
      Some(issues + Repeated("GroundTruthMatrix", |report.blockingFailures|) + VetoIssue(t, a)),
      Some(VetoTarget(t, a, report.gates)))
  }

  /** A veto never raises a score and leaves at most 45; the claimed issues stay, with one more for each gate. */
  lemma VetoLowersScore(claimed: Review, t: TestInfo, a: Analysis, report: Report)
    ensures var v := Vetoed(claimed, t, a, report);
      && v.verdict == "FAIL" && v.score.Some? && v.score.value <= 45
      && (v.score.value < 45 ==> claimed.score == v.score)
      && (claimed.score.Some? ==> v.score.value <= claimed.score.value)
      && v.issues.Some? && (claimed.issues.Some? ==> claimed.issues.value <= v.issues.value)
      && multiset(v.issues.value)["GroundTruthMatrix"] >= |report.blockingFailures|
  {
    var before := if claimed.issues.Some? then claimed.issues.value else [];
    var gates := Repeated("GroundTruthMatrix", |report.blockingFailures|);
    RepeatedCounts("GroundTruthMatrix", |report.blockingFailures|);
    assert Vetoed(claimed, t, a, report).issues.value == before + (gates + VetoIssue(t, a));
    assert multiset(before + (gates + VetoIssue(t, a)))
      == multiset(before) + multiset(gates) + multiset(VetoIssue(t, a));
  }

  lemma {:induction false} RepeatedCounts(component: string, n: nat)
    ensures multiset(Repeated(component, n))[component] == n
  {
    if n > 0 {
      RepeatedCounts(component, n - 1);
      assert Repeated(component, n) == Repeated(component, n - 1) + [component];
    }
  }

  method Judge(answer: Answer, t: TestInfo, a: Analysis)
    returns (result: Review, verdict: Verdict, report: Report, ghost claimed: Review)
    ensures ReportsOn(report, t, a)
    ensures exists objective: Review ::
      && objective.verdict == (if NothingFailed(t, a) then "PASS" else "FAIL")
      && objective.issues == Some(FailureIssues(t, a))
      && claimed == Claimed(answer, objective)
    ensures result.verdict == VerdictText(claimed.verdict, t, report)
    ensures verdict == if result.verdict == "PASS" then PASS else FAIL
    ensures result ==
      if SaysPass(claimed.verdict) && verdict == FAIL then Vetoed(claimed, t, a, report)
      else claimed.(verdict := result.verdict)
  {
    hide Contains, Strip, Upper, GateOf;
    report := Evaluate(t, a);
    VetoCovers(report, t, a);
    hide ReportsOn;
    var objective := ScoreObjectively(t, a);
    result := Claimed(answer, objective);
    claimed := result;
    var isPass := SaysPass(result.verdict);
    if isPass && (!report.passed || TestFailure(t) || t.tautologicalWarnings > 0 || StaticFailed(a)) {
      verdict := FAIL;
      var score := if result.score.Some? then result.score.value else 90;
      var issues := if result.issues.Some? then result.issues.value else [];
      ghost var before := issues;
      for i := 0 to |report.blockingFailures|
        invariant issues == before + Repeated("GroundTruthMatrix", i)
      {
        issues := issues + ["GroundTruthMatrix"];
      }
      var target := CODER;
      if TestFailure(t) {
        issues := issues + ["TestSuite"];
      } else if t.tautologicalWarnings > 0 {
        issues, target := issues + ["TestIntegrity"], TESTER;
      } else if StaticFailed(a) {
        issues := issues + ["StaticVerification"];
      } else if SPEC_TRACEABILITY !in report.gates || !report.gates[SPEC_TRACEABILITY].passed {
        target := TESTER;
      }
      assert issues == Vetoed(claimed, t, a, report).issues.value;
      result := Review("FAIL", Some(if score < 45 then score else 45), Some(issues), Some(target));
    } else if isPass && report.passed {
      verdict := PASS;
    } else {
      verdict := FAIL;
    }
    result := result.(verdict := if verdict == PASS then "PASS" else "FAIL");
  }

  /**
   The separate tests for static failures and tautologies add nothing to the veto: the matrix
   already fails for them. A test failure can go unseen by the matrix, so its test matters.
   */
  lemma VetoCovers(r: Report, t: TestInfo, a: Analysis)
    requires ReportsOn(r, t, a)
    ensures StaticFailed(a) || t.tautologicalWarnings > 0 || PipelineFailed(t) ==> !r.passed
    ensures r.passed <==> r.blockingFailures == []
    ensures !r.passed ==> |r.blockingFailures| > 0
  {
    if r.passed {
      PassedMeans(r, t, a);
    }
  }

  /** A passing verdict means that nothing the deterministic checks look at has failed. */
  lemma PassMeansChecked(r: Report, t: TestInfo, a: Analysis)
    requires ReportsOn(r, t, a) && r.passed && !TestFailure(t)
    ensures NothingFailed(t, a)
    ensures if t.pipeline.Some? then t.pipeline.value else RanCleanly(t)
  {
    PassedMeans(r, t, a);
  }

  /** Nothing but the tests' own output tells the matrix about them. */
  predicate Unwatched(t: TestInfo, a: Analysis) {
    t.pipeline == Some(true) && !(a.baseline.Some? && RanCleanly(a.baseline.value))
  }

  /**
   Which test failures a passed matrix has missed: counted failures always, which it never reads; and
   a failed run exactly when a passing pipeline report spoke for it and no clean baseline did.
   */
  lemma MissedFailureIff(r: Report, t: TestInfo, a: Analysis)
    requires ReportsOn(r, t, a) && r.passed
    ensures TestFailure(t) <==>
      t.testsFailed > 0
      || (Unwatched(t, a) && (t.executionSuccess == Given(false) || t.exitCode !in {Missing, Given(0)}))
  {
    PassedMeans(r, t, a);
  }

  ghost predicate NoneBlocks(t: TestInfo, a: Analysis) {
    forall n: GateName :: !Blocks(GateOf(t, a, n))
  }

  /** An analysis with nothing to say against any change. */
  const CLEAN := Analysis(
    Some(true), true, None, None, Coverage(true, true, false, 0.0, 0), Traceability(true, true, 0.0))

  /**
   Whether the tests failed or not, the matrix can pass for them exactly when the pipeline report, or
   without one a clean run, lets it and there are no tautologies.
   */
  lemma MatrixCanPassIff(t: TestInfo)
    ensures (exists a :: NoneBlocks(t, a)) <==> BuildGate(t).passed && TautologyGate(t).passed
  {
    if a :| NoneBlocks(t, a) {
      assert !Blocks(GateOf(t, a, BUILD_PIPELINE)) && !Blocks(GateOf(t, a, ANTI_TAUTOLOGY));
    }
    if BuildGate(t).passed && TautologyGate(t).passed {
      assert NoneBlocks(t, CLEAN);
    }
  }

  /** It happens: three failed tests in a failed run, hidden by a pipeline report that passed. */
  lemma MatrixCanMissFailedTests(t: TestInfo, r: Report)
    requires t == TestInfo(Given(false), Given(1), 3, 0, 0, None, Some(true)) && ReportsOn(r, t, CLEAN)
    ensures r.passed && TestFailure(t)
  {
    PassedIffNoneBlocks(r, t, CLEAN);
    forall n: GateName ensures !Blocks(GateOf(t, CLEAN, n)) {
    }
  }
}

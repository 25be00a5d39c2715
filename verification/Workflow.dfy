/**
 The workflow graph: subtasks, review and bounded replanning, the routes between them, and the
 status a finished run is given. The subtask scheduler, the agents and the replanner enter as
 inputs of the steps.
 */
module Workflow {
  import opened GroundTruth
  import opened Reviewer
  import Plans = TaskDag
  import opened TaskGraph
  import opened Tasks
  import opened Text
  import opened Wrappers

  datatype Node = Discovery | Understand | Decompose | ExecuteSubtasks | ReviewWork | Replan | End

  datatype Route = ToPass | ToReplan | ToMaxIterations

  /** A review by the review agent, with what it claimed and what it checked, or by another agent. */
  datatype ReviewInput =
    | ByReviewer(claimed: string, tests: TestInfo, analysis: Analysis, report: Report)
    | ByOther(text: string)

  ghost predicate Sound(i: ReviewInput) {
    i.ByReviewer? ==> ReportsOn(i.report, i.tests, i.analysis)
  }

  function TextOf(i: ReviewInput): string {
    if i.ByReviewer? then VerdictText(i.claimed, i.tests, i.report) else i.text
  }

  datatype Input = Input(allCompleted: bool, hasReady: bool, review: ReviewInput)

  datatype State = State(
    node: Node, verdict: string, iteration: int, maxIterations: int,
    lastRoute: Option<Route>, lastReview: Option<ReviewInput>,
    replans: nat, reviews: nat, continued: nat)

  function Start(maxIterations: int): State {
    State(Discovery, "UNDECIDED", 0, maxIterations, None, None, 0, 0, 0)
  }

  predicate HasPass(verdict: string) {
    Contains(Upper(verdict), "PASS")
  }

  function RouteAfterReview(verdict: string, iteration: int, maxIterations: int): Route {
    if HasPass(verdict) then ToPass
    else if iteration >= maxIterations then ToMaxIterations
    else ToReplan
  }

  function Step(s: State, i: Input): State {
    match s.node
    case Discovery => s.(node := Understand)
    case Understand => s.(node := Decompose)
    case Decompose => s.(node := ExecuteSubtasks)
    case ExecuteSubtasks =>
      if !i.allCompleted && i.hasReady then s.(continued := s.continued + 1) else s.(node := ReviewWork)
    case ReviewWork =>
      var verdict := Upper(TextOf(i.review));
      var route := RouteAfterReview(verdict, s.iteration, s.maxIterations);
      s.(node := if route == ToReplan then Replan else End, verdict := verdict,
         lastRoute := Some(route), lastReview := Some(i.review), reviews := s.reviews + 1)
    case Replan => s.(node := ExecuteSubtasks, iteration := s.iteration + 1, replans := s.replans + 1)
    case End => s
  }

  function Run(maxIterations: int, inputs: seq<Input>): State {
    if inputs == [] then Start(maxIterations)
    else Step(Run(maxIterations, inputs[..|inputs| - 1]), inputs[|inputs| - 1])
  }

  /**
   In a plan that passed the cycle check and misses no dependency, as long as no task has failed
   or is running, the graph keeps executing exactly until every task is completed.
   */
  lemma CheckedPlanContinues(s: State, i: Input, tasks: Graph, states: Plans.States, order: seq<TaskId>)
    requires s.node == ExecuteSubtasks
    requires i.allCompleted == Plans.AllCompleted(states)
    requires i.hasReady == (Plans.After(tasks, states, order).ready != [])
    requires Lists(order, tasks) && Plans.Covers(states, tasks) && !Cyclic(tasks)
    requires Plans.ClosedPlan(tasks) && Plans.OnlyWaitingOrDone(states)
    ensures Step(s, i).node == ExecuteSubtasks <==> !Plans.AllCompleted(states)
  {
    if !Plans.AllCompleted(states) {
      var t :| t in states && states[t] !in {Plans.COMPLETED, Plans.SKIPPED, Plans.SKIPPED_REDUNDANT};
      assert Plans.Waiting(states[t]);
      Plans.CheckedPlanNeverStalls(tasks, states, order, t);
    }
  }

  /**
   In any plan that passed the cycle check the graph keeps executing exactly while some waiting task is
   not held up; a finished plan, and one that stalls, go to review.
   */
  lemma ContinuesIff(s: State, i: Input, tasks: Graph, states: Plans.States, order: seq<TaskId>)
    requires s.node == ExecuteSubtasks
    requires i.allCompleted == Plans.AllCompleted(states)
    requires i.hasReady == (Plans.After(tasks, states, order).ready != [])
    requires Lists(order, tasks) && Plans.Covers(states, tasks) && !Cyclic(tasks)
    ensures Step(s, i).node in {ExecuteSubtasks, ReviewWork}
    ensures Step(s, i).node == ExecuteSubtasks <==>
      exists t :: t in tasks && Plans.Waiting(states[t]) && !Plans.Held(tasks, states, t)
  {
    hide Plans.After, Plans.Held, Lists;
    Plans.StallsIffAllHeld(tasks, states, order);
  }

  // ---------- Bounded replanning ----------

  function Bound(maxIterations: int): nat {
    if maxIterations < 0 then 0 else maxIterations
  }

  /** What every reachable state satisfies. */
  ghost predicate Inv(s: State) {
    && s.iteration == s.replans <= Bound(s.maxIterations)
    && s.reviews == s.replans + (if s.node in {Replan, End} then 1 else 0)
    && (s.node in {Replan, End} ==>
          && s.lastReview.Some?
          && s.verdict == Upper(TextOf(s.lastReview.value))
          && s.lastRoute == Some(RouteAfterReview(s.verdict, s.iteration, s.maxIterations))
          && (s.node == Replan <==> s.lastRoute == Some(ToReplan)))
  }

  lemma StepKeepsInv(s: State, i: Input)
    requires Inv(s)
    ensures Inv(Step(s, i)) && Step(s, i).maxIterations == s.maxIterations
  {
    hide HasPass, TextOf, Upper;
  }

  lemma {:induction false} RunKeepsInv(maxIterations: int, inputs: seq<Input>)
    ensures Inv(Run(maxIterations, inputs)) && Run(maxIterations, inputs).maxIterations == maxIterations
  {
    if inputs != [] {
      RunKeepsInv(maxIterations, inputs[..|inputs| - 1]);
      hide Inv, Step;
      StepKeepsInv(Run(maxIterations, inputs[..|inputs| - 1]), inputs[|inputs| - 1]);
    }
  }

  /** No run replans more than the limit, and none reviews more than once per plan. */
  lemma ReplansAreBounded(maxIterations: int, inputs: seq<Input>)
    ensures var s := Run(maxIterations, inputs);
      s.replans <= Bound(maxIterations) && s.reviews <= Bound(maxIterations) + 1
  {
    RunKeepsInv(maxIterations, inputs);
  }

  /** How far a run is, not counting steps that only continue with further subtasks. */
  function Progress(s: State): nat {
    match s.node
    case Discovery => 0
    case Understand => 1
    case Decompose => 2
    case ExecuteSubtasks => 3 * s.replans + 3
    case ReviewWork => 3 * s.replans + 4
    case Replan => 3 * s.replans + 5
    case End => 3 * s.replans + 5
  }

  lemma {:induction false} StepsMakeProgress(maxIterations: int, inputs: seq<Input>)
    ensures var s := Run(maxIterations, inputs);
      && (s.node != End ==> |inputs| == Progress(s) + s.continued)
      && (s.node in {Discovery, Understand, Decompose} ==> s.replans == 0)
  {
    if inputs != [] {
      StepsMakeProgress(maxIterations, inputs[..|inputs| - 1]);
      hide HasPass, TextOf, Upper;
    }
  }

  /** A run is over after 3 * limit + 5 steps, plus one for each time subtasks were continued. */
  lemma RunsEnd(maxIterations: int, inputs: seq<Input>)
    requires |inputs| > 3 * Bound(maxIterations) + 5 + Run(maxIterations, inputs).continued
    ensures Run(maxIterations, inputs).node == End
  {
    StepsMakeProgress(maxIterations, inputs);
    RunKeepsInv(maxIterations, inputs);
    hide Run;
  }

  // ---------- The final status ----------

  datatype TaskStatus = COMPLETED | STOPPED | FAILED | INCOMPLETE | NEED_VERIFICATION

  function VerdictFrom(text: string): Verdict {
    if HasPass(text) then PASS else if Contains(Upper(text), "FAIL") then FAIL else UNDECIDED
  }

  /** `dag` says whether all tasks are completed, if there is a task graph. */
  function ResolveTerminalStatus(verdict: Verdict, dag: Option<bool>, iteration: int, maxIterations: int): TaskStatus {
    if verdict == PASS then COMPLETED
    else if iteration >= maxIterations then STOPPED
    else if verdict == FAIL then FAILED
    else if dag == Some(false) then INCOMPLETE
    else NEED_VERIFICATION
  }

  /** The converted state never gets the configured limit, so this default is used. */
  const DEFAULT_MAX_ITERATIONS := 3

  function FinalStatus(s: State, dag: Option<bool>): TaskStatus {
    ResolveTerminalStatus(VerdictFrom(s.verdict), dag, s.iteration, DEFAULT_MAX_ITERATIONS)
  }

  /** A finished run is completed exactly when its last route was to pass. */
  lemma CompletedIffPassed(maxIterations: int, inputs: seq<Input>, dag: Option<bool>)
    requires Run(maxIterations, inputs).node == End
    ensures var s := Run(maxIterations, inputs);
      FinalStatus(s, dag) == COMPLETED <==> s.lastRoute == Some(ToPass)
  {
    RunKeepsInv(maxIterations, inputs);
    hide Run, HasPass, TextOf, Upper;
  }

  /**
   The documented rule, that a run halted at its limit is STOPPED, is kept exactly when the run
   passed or the limit is at least three; below three such a run is FAILED or left open.
   */
  lemma StatusFollowsLimitIff(maxIterations: int, inputs: seq<Input>, dag: Option<bool>)
    requires Run(maxIterations, inputs).node == End
    ensures var s := Run(maxIterations, inputs);
      var documented := ResolveTerminalStatus(VerdictFrom(s.verdict), dag, s.iteration, maxIterations);
      FinalStatus(s, dag) == documented <==> s.lastRoute == Some(ToPass) || maxIterations >= 3
  {
    RunKeepsInv(maxIterations, inputs);
    hide Run, HasPass, TextOf, Upper, Contains;
  }

  /** The status of every finished run, of the five there are. */
  lemma FinalStatusIs(maxIterations: int, inputs: seq<Input>, dag: Option<bool>)
    requires Run(maxIterations, inputs).node == End
    ensures var s := Run(maxIterations, inputs); var status := FinalStatus(s, dag);
      && s.lastRoute in {Some(ToPass), Some(ToMaxIterations)}
      && (status == COMPLETED <==> s.lastRoute == Some(ToPass))
      && (status == STOPPED <==> s.lastRoute == Some(ToMaxIterations) && maxIterations >= 3)
      && (s.lastRoute == Some(ToMaxIterations) && maxIterations < 3 ==>
            && (status == TaskStatus.FAILED <==> Contains(Upper(s.verdict), "FAIL"))
            && (status == INCOMPLETE <==> !Contains(Upper(s.verdict), "FAIL") && dag == Some(false))
            && (status == NEED_VERIFICATION <==> !Contains(Upper(s.verdict), "FAIL") && dag != Some(false)))
  {
    RunKeepsInv(maxIterations, inputs);
    hide Run, HasPass, TextOf, Upper, Contains;
  }

  lemma FailIsNotPass()
    ensures !HasPass("FAIL") && Upper("FAIL") == "FAIL" && VerdictFrom("FAIL") == FAIL
    ensures HasPass("PASS") && Upper("PASS") == "PASS"
  {
    assert Upper("FAIL") == "FAIL" && Upper("PASS") == "PASS";
    assert "FAIL"[1..] == "AIL" && "AIL"[1..] == "IL" && "IL"[1..] == "L" && "L"[1..] == "";
    assert !Contains("", "PASS") && !Contains("L", "PASS") && !Contains("IL", "PASS") && !Contains("AIL", "PASS");
  }

  /** It happens for every limit below three: a run whose reviews all fail ends FAILED where the rule gives STOPPED. */
  lemma LowLimitIsMisreported(maxIterations: int, dag: Option<bool>) returns (inputs: seq<Input>)
    requires maxIterations < 3
    ensures var s := Run(maxIterations, inputs);
      && s.node == End && s.lastRoute == Some(ToMaxIterations)
      && ResolveTerminalStatus(VerdictFrom(s.verdict), dag, s.iteration, maxIterations) == STOPPED
      && FinalStatus(s, dag) == TaskStatus.FAILED
  {
    inputs := seq(3 * Bound(maxIterations) + 6, _ => FAILING);
    FailingRun(maxIterations, inputs);
    RunsEnd(maxIterations, inputs);
    RunKeepsInv(maxIterations, inputs);
    FailIsNotPass();
    hide Run, HasPass, Upper, Contains;
  }

  /** All subtasks done, and a review that fails. */
  const FAILING := Input(true, false, ByOther("FAIL"))

  lemma {:induction false} FailingRun(maxIterations: int, inputs: seq<Input>)
    requires forall k :: 0 <= k < |inputs| ==> inputs[k] == FAILING
    ensures var s := Run(maxIterations, inputs);
      s.continued == 0 && (s.node in {Replan, End} ==> s.verdict == "FAIL")
  {
    hide HasPass, Upper, Contains;
    if inputs != [] {
      FailingRun(maxIterations, inputs[..|inputs| - 1]);
      FailIsNotPass();
    }
  }

  /** With the review agent, a halted run is STOPPED from a limit of three on, and FAILED below. */
  lemma HaltedRunStatus(maxIterations: int, inputs: seq<Input>, dag: Option<bool>)
    requires var s := Run(maxIterations, inputs);
      s.node == End && s.lastRoute == Some(ToMaxIterations) && s.lastReview.Some? && s.lastReview.value.ByReviewer?
    ensures FinalStatus(Run(maxIterations, inputs), dag) == if maxIterations >= 3 then STOPPED else FAILED
  {
    RunKeepsInv(maxIterations, inputs);
    FailIsNotPass();
    hide Run, HasPass, Upper, Contains, SaysPass;
  }

  /**
   A completed run whose last review was the review agent's has passed every deterministic
   check at that review; in full, it is completed exactly when the claim and the checks passed.
   */
  lemma CompletedMeansChecked(maxIterations: int, inputs: seq<Input>, dag: Option<bool>)
    requires Run(maxIterations, inputs).node == End && Run(maxIterations, inputs).lastReview.Some?
    requires var r := Run(maxIterations, inputs).lastReview.value; r.ByReviewer? && Sound(r)
    ensures var s := Run(maxIterations, inputs); var r := s.lastReview.value;
      && (FinalStatus(s, dag) == COMPLETED <==> SaysPass(r.claimed) && r.report.passed && !TestFailure(r.tests))
      && (FinalStatus(s, dag) == COMPLETED ==> NothingFailed(r.tests, r.analysis))
  {
    hide Run, HasPass, Upper, Contains, SaysPass, ReportsOn, TestFailure, NothingFailed;
    RunKeepsInv(maxIterations, inputs);
    FailIsNotPass();
    var r := Run(maxIterations, inputs).lastReview.value;
    if r.report.passed && !TestFailure(r.tests) {
      PassMeansChecked(r.report, r.tests, r.analysis);
    }
  }

  // ---------- Retries when a failure is reconciled at its source ----------

  class ExecutableTask {
    var state: Plans.TaskState
    var currentRetry: int
    const maxRetries: int

    constructor (maxRetries: int)
      ensures this.maxRetries == maxRetries && currentRetry == 0 && state == Plans.PENDING
    {
      this.maxRetries, currentRetry, state := maxRetries, 0, Plans.PENDING;
    }
  }

  ghost predicate CanRetry(t: ExecutableTask)
    reads t
  {
    t.currentRetry < t.maxRetries
  }

  /** What reconciling does to one failed task: with a retry left it uses one and is ready again. */
  twostate predicate Reconciled(t: ExecutableTask)
    reads t
  {
    if old(CanRetry(t)) then t.currentRetry == old(t.currentRetry) + 1 <= t.maxRetries && t.state == Plans.READY
    else t.currentRetry == old(t.currentRetry) && t.state == old(t.state)
  }

  /** Readies each failed task that has a retry left, using one; the others stay failed. */
  method Reconcile(failedTasks: seq<ExecutableTask>) returns (canReconcile: bool)
    requires forall i, j :: 0 <= i < j < |failedTasks| ==> failedTasks[i] != failedTasks[j]
    requires forall i :: 0 <= i < |failedTasks| ==> failedTasks[i].state == Plans.FAILED
    modifies failedTasks
    ensures canReconcile <==> exists i :: 0 <= i < |failedTasks| && old(CanRetry(failedTasks[i]))
    ensures canReconcile <==> exists i :: 0 <= i < |failedTasks| && failedTasks[i].state == Plans.READY
    ensures forall i :: 0 <= i < |failedTasks| ==> Reconciled(failedTasks[i])
  {
    canReconcile := false;
    for i := 0 to |failedTasks|
      invariant canReconcile <==> exists k :: 0 <= k < i && old(CanRetry(failedTasks[k]))
      invariant forall k :: 0 <= k < i ==> Reconciled(failedTasks[k])
      invariant forall k :: i <= k < |failedTasks| ==> unchanged(failedTasks[k])
    {
      var t := failedTasks[i];
      if t.currentRetry < t.maxRetries {
        t.currentRetry := t.currentRetry + 1;
        t.state := Plans.READY;
        canReconcile := true;
      }
    }
  }
}

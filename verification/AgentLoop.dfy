/**
 The agent execution loop: reason, select a tool, ask permission, execute, observe, update
 the state, rebuild the context, and again, until the task is complete or the iteration
 limit is passed. What the model, the permission engine and the tools answer is a `Turn`
 per iteration, arbitrary.
 */
module AgentLoop {
  import opened Wrappers
  import opened Text
  import opened EventStreams

  // ---------- One iteration's answers ----------

  datatype Decision =
    | Finish(finalResponse: string)
    | CallTool(tool: string, summary: string)   // an empty tool name means no tool was called

  datatype Turn = Turn(
    thought: string,
    decision: Decision,
    allowed: bool,          // the permission engine's verdict
    evidence: string,       // of the observation made from the tool's output
    isError: bool,          // the observation's severity is error
    rebuilt: bool)          // a context compiler is present and did not fail

  predicate CompletesTask(tool: string) {
    tool == "complete_task" || tool == "finish_task" || tool == "submit_solution"
  }

  predicate Calls(t: Turn) {
    t.decision.CallTool? && t.decision.tool != ""
  }

  predicate Executes(t: Turn) {
    Calls(t) && t.allowed
  }

  /** The turn completes the task. */
  predicate Ends(t: Turn) {
    !Calls(t) || (t.allowed && CompletesTask(t.decision.tool))
  }

  function FinalText(t: Turn): string
    requires Ends(t)
  {
    match t.decision
    case Finish(response) =>
      if response != "" then response else if t.thought != "" then t.thought else "Task completed."
    case CallTool(tool, summary) =>
      if tool == "" then t.thought else if summary != "" then summary else t.evidence
  }

  /** A turn ends the run when the model finishes, names no tool, or makes one of three calls and may. */
  lemma EndsMeans(t: Turn)
    ensures Ends(t) <==>
      || t.decision.Finish?
      || t.decision.tool == ""
      || (t.allowed && t.decision.tool in ["complete_task", "finish_task", "submit_solution"])
  {
  }

  /** The final text is the first of its sources that has something to say. */
  lemma FinalTextMeans(t: Turn)
    requires Ends(t)
    ensures t.decision.Finish? ==> FirstText([t.decision.finalResponse, t.thought, "Task completed."], FinalText(t))
    ensures t.decision.CallTool? && t.decision.tool == "" ==> FinalText(t) == t.thought
    ensures t.decision.CallTool? && t.decision.tool != "" ==>
      FirstText([t.decision.summary, t.evidence], FinalText(t)) || (t.evidence == "" && FinalText(t) == "")
  {
    if t.decision.Finish? {
      var texts := [t.decision.finalResponse, t.thought, "Task completed."];
      assert FinalText(t) == if texts[0] != "" then texts[0] else if texts[1] != "" then texts[1] else texts[2];
    } else if t.decision.tool != "" {
      var texts := [t.decision.summary, t.evidence];
      assert FinalText(t) == if texts[0] != "" then texts[0] else texts[1];
    }
  }

  /** `text` is the first of `texts` that is not empty. */
  ghost predicate FirstText(texts: seq<string>, text: string) {
    exists i :: 0 <= i < |texts| && texts[i] == text != "" && forall j :: 0 <= j < i ==> texts[j] == ""
  }

  // ---------- The reference run ----------

  /** The iteration the run stops in: the first that completes, or the first past the limit. */
  function StopAt(turns: nat -> Turn, i: nat, limit: int): (n: nat)
    requires i > 0
    ensures i <= n && (n == i || n <= limit + 1)
    decreases limit - i
  {
    if i > limit || Ends(turns(i)) then i else StopAt(turns, i + 1, limit)
  }

  datatype ToolCall = ToolCall(iteration: int, tool: string)

  /** The tool calls recorded in iterations 1 to `n`. */
  function CallsUpTo(turns: nat -> Turn, n: nat): seq<ToolCall> {
    if n == 0 then []
    else if Calls(turns(n)) then CallsUpTo(turns, n - 1) + [ToolCall(n, turns(n).decision.tool)]
    else CallsUpTo(turns, n - 1)
  }

  /** The tools executed in iterations 1 to `n`. */
  function ExecutedUpTo(turns: nat -> Turn, n: nat): seq<ToolCall> {
    if n == 0 then []
    else if Executes(turns(n)) then ExecutedUpTo(turns, n - 1) + [ToolCall(n, turns(n).decision.tool)]
    else ExecutedUpTo(turns, n - 1)
  }

  datatype Observation = Observation(tool: string, isError: bool)

  /** The observation a call leaves: an error for a denied call, else what the tool's output was. */
  function ObservationOf(t: Turn): Observation
    requires Calls(t)
  {
    Observation(t.decision.tool, !t.allowed || t.isError)
  }

  /** The observations made in iterations 1 to `n`. */
  function ObservationsUpTo(turns: nat -> Turn, n: nat): seq<Observation> {
    if n == 0 then []
    else if Calls(turns(n)) then ObservationsUpTo(turns, n - 1) + [ObservationOf(turns(n))]
    else ObservationsUpTo(turns, n - 1)
  }

  /** The event types one turn emits. */
  function TurnTypes(t: Turn): seq<EventType> {
    [ReasoningStarted, ReasoningCompleted] +
    if !Calls(t) then [LoopCompleted]
    else if !t.allowed then [PermissionDenied, StateUpdated] + (if t.rebuilt then [ContextRebuilt] else [])
    else
      [ToolSelected, ToolExecutionStarted, ToolExecutionCompleted, ObservationProduced, StateUpdated] +
      if CompletesTask(t.decision.tool) then [LoopCompleted]
      else if t.rebuilt then [ContextRebuilt] else []
  }

  function AtIteration(types: seq<EventType>, i: int): seq<LoopEvent> {
    if types == [] then []
    else AtIteration(types[..|types| - 1], i) + [LoopEvent(types[|types| - 1], i)]
  }

  /** Every event of the run from iteration `i` on. */
  function RunEvents(turns: nat -> Turn, i: nat, limit: int): seq<LoopEvent>
    decreases limit - i
  {
    if i > limit then [LoopEvent(LoopCompleted, i)]
    else AtIteration(TurnTypes(turns(i)), i) + if Ends(turns(i)) then [] else RunEvents(turns, i + 1, limit)
  }

  // ---------- The phase language ----------

  /** The places of the phase machine, between events. */
  datatype Phase =
    | Head          // at the loop head
    | Reasoning
    | Decided
    | Denied
    | Selected
    | Executing
    | Finished
    | Observed
    | UpdatedDenied // after the state update of a denied call
    | Updated       // after the state update of an executed call
    | Done
    | Wrong

  function Next(p: Phase, e: EventType): Phase {
    match (p, e)
    case (Head, ReasoningStarted) => Reasoning
    case (Head, LoopCompleted) => Done
    case (Reasoning, ReasoningCompleted) => Decided
    case (Decided, LoopCompleted) => Done
    case (Decided, PermissionDenied) => Denied
    case (Decided, ToolSelected) => Selected
    case (Denied, StateUpdated) => UpdatedDenied
    case (Selected, ToolExecutionStarted) => Executing
    case (Executing, ToolExecutionCompleted) => Finished
    case (Finished, ObservationProduced) => Observed
    case (Observed, StateUpdated) => Updated
    case (UpdatedDenied, ContextRebuilt) => Head
    case (UpdatedDenied, ReasoningStarted) => Reasoning
    case (UpdatedDenied, LoopCompleted) => Done
    case (Updated, ContextRebuilt) => Head
    case (Updated, ReasoningStarted) => Reasoning
    case (Updated, LoopCompleted) => Done
    case _ => Wrong
  }

  function After(p: Phase, events: seq<LoopEvent>): Phase {
    if events == [] then p else Next(After(p, events[..|events| - 1]), events[|events| - 1].kind)
  }

  predicate AtHead(p: Phase) {
    p == Head || p == UpdatedDenied || p == Updated
  }

  lemma {:induction false} AfterConcat(p: Phase, x: seq<LoopEvent>, y: seq<LoopEvent>)
    ensures After(p, x + y) == After(After(p, x), y)
  {
    if y == [] {
      assert x + y == x;
    } else {
      assert (x + y)[..|x + y| - 1] == x + y[..|y| - 1];
      AfterConcat(p, x, y[..|y| - 1]);
    }
  }

  lemma {:induction false} AtIterationSnoc(types: seq<EventType>, e: EventType, i: int)
    ensures AtIteration(types + [e], i) == AtIteration(types, i) + [LoopEvent(e, i)]
  {
    assert (types + [e])[..|types|] == types;
  }

  lemma AfterSnoc(p: Phase, events: seq<LoopEvent>, e: LoopEvent)
    ensures After(p, events + [e]) == Next(After(p, events), e.kind)
  {
    assert (events + [e])[..|events|] == events;
  }

  lemma {:induction false} AfterTypes(p: Phase, types: seq<EventType>, e: EventType, i: int)
    ensures After(p, AtIteration(types + [e], i)) == Next(After(p, AtIteration(types, i)), e)
  {
    AtIterationSnoc(types, e, i);
    AfterSnoc(p, AtIteration(types, i), LoopEvent(e, i));
  }

  /** The two ways a call goes from the decision on. */
  lemma CallSteps()
    ensures Next(Next(Decided, PermissionDenied), StateUpdated) == UpdatedDenied
    ensures Next(Next(Next(Next(Next(Decided, ToolSelected), ToolExecutionStarted), ToolExecutionCompleted),
      ObservationProduced), StateUpdated) == Updated
    ensures Next(UpdatedDenied, ContextRebuilt) == Head && Next(Updated, ContextRebuilt) == Head
    ensures Next(Updated, LoopCompleted) == Done && Next(Decided, LoopCompleted) == Done
  {
  }

  lemma AfterOne(p: Phase, a: EventType, i: int)
    ensures After(p, AtIteration([a], i)) == Next(p, a)
  {
    hide Next;
    var none: seq<EventType> := [];
    AfterTypes(p, none, a, i);
    assert none + [a] == [a];
  }

  lemma ReasonSteps(p: Phase)
    requires AtHead(p)
    ensures Next(Next(p, ReasoningStarted), ReasoningCompleted) == Decided
  {
  }

  lemma Reasoned(p: Phase, i: int)
    requires AtHead(p)
    ensures After(p, AtIteration([ReasoningStarted, ReasoningCompleted], i)) == Decided
  {
    hide Next, After, AtIteration, AtHead;
    ReasonSteps(p);
    AfterOne(p, ReasoningStarted, i);
    AfterTypes(p, [ReasoningStarted], ReasoningCompleted, i);
    assert [ReasoningStarted] + [ReasoningCompleted] == [ReasoningStarted, ReasoningCompleted];
  }

  /** A turn leads from the loop head back to it, or to the end exactly when it completes the task. */
  lemma TurnFollowsPhases(p: Phase, t: Turn, i: int)
    requires AtHead(p)
    ensures After(p, AtIteration(TurnTypes(t), i)) == Done <==> Ends(t)
    ensures !Ends(t) ==> AtHead(After(p, AtIteration(TurnTypes(t), i)))
  {
    hide Next, After, AtIteration, CompletesTask;
    CallSteps();
    Reasoned(p, i);
    var decided := [ReasoningStarted, ReasoningCompleted];
    if !Calls(t) {
      AfterTypes(p, decided, LoopCompleted, i);
      assert TurnTypes(t) == decided + [LoopCompleted];
    } else if !t.allowed {
      var denied := decided + [PermissionDenied];
      var updated := denied + [StateUpdated];
      AfterTypes(p, decided, PermissionDenied, i);
      AfterTypes(p, denied, StateUpdated, i);
      AfterTypes(p, updated, ContextRebuilt, i);
      assert TurnTypes(t) == if t.rebuilt then updated + [ContextRebuilt] else updated;
    } else {
      var selected := decided + [ToolSelected];
      var started := selected + [ToolExecutionStarted];
      var executed := started + [ToolExecutionCompleted];
      var observed := executed + [ObservationProduced];
      var updated := observed + [StateUpdated];
      AfterTypes(p, decided, ToolSelected, i);
      AfterTypes(p, selected, ToolExecutionStarted, i);
      AfterTypes(p, started, ToolExecutionCompleted, i);
      AfterTypes(p, executed, ObservationProduced, i);
      AfterTypes(p, observed, StateUpdated, i);
      AfterTypes(p, updated, ContextRebuilt, i);
      AfterTypes(p, updated, LoopCompleted, i);
      assert TurnTypes(t) ==
        (if CompletesTask(t.decision.tool) then updated + [LoopCompleted]
         else if t.rebuilt then updated + [ContextRebuilt] else updated);
    }
  }

  /** The one event of a run past its limit. */
  lemma HaltedEvents(p: Phase, i: nat)
    requires AtHead(p)
    ensures After(p, [LoopEvent(LoopCompleted, i)]) == Done
  {
    AfterSnoc(p, [], LoopEvent(LoopCompleted, i));
    assert After(p, []) == p;
    assert [] + [LoopEvent(LoopCompleted, i)] == [LoopEvent(LoopCompleted, i)];
  }

  /** Every run's events follow the phases and end in the final one. */
  lemma {:induction false} RunFollowsPhases(p: Phase, turns: nat -> Turn, i: nat, limit: int)
    requires AtHead(p)
    ensures After(p, RunEvents(turns, i, limit)) == Done
    decreases limit - i
  {
    if i > limit {
      HaltedEvents(p, i);
    } else {
      hide Next, TurnTypes, After, AtIteration, AtHead, Ends;
      var first := AtIteration(TurnTypes(turns(i)), i);
      TurnFollowsPhases(p, turns(i), i);
      if Ends(turns(i)) {
        assert first + [] == first;
      } else {
        RunFollowsPhases(After(p, first), turns, i + 1, limit);
        AfterConcat(p, first, RunEvents(turns, i + 1, limit));
      }
    }
  }

  lemma {:induction false} StuckWhenDone(p: Phase, events: seq<LoopEvent>)
    requires (p == Done || p == Wrong) && events != []
    ensures After(p, events) == Wrong
    decreases |events|
  {
    var n := |events| - 1;
    if n == 0 {
      assert After(p, events[..n]) == p;
    } else {
      StuckWhenDone(p, events[..n]);
    }
  }

  lemma LastStep(p: Phase, events: seq<LoopEvent>)
    requires events != []
    ensures After(p, events) == Next(After(p, events[..|events| - 1]), events[|events| - 1].kind)
  {
    hide Next;
  }

  lemma CompletionEnds(p: Phase)
    ensures Next(p, LoopCompleted) == Done || Next(p, LoopCompleted) == Wrong
  {
  }

  lemma OnlyCompletionIsDone(p: Phase, e: EventType)
    ensures Next(p, e) == Done ==> e == LoopCompleted
  {
  }

  /** In a word of the language the completion event occurs once, as the last event. */
  lemma {:induction false} CompletedOnceAndLast(p: Phase, events: seq<LoopEvent>, i: nat)
    requires p != Done && After(p, events) == Done && i < |events|
    ensures events[i].kind == LoopCompleted <==> i == |events| - 1
  {
    hide Next, After;
    var n := |events| - 1;
    LastStep(p, events);
    if i < n && events[i].kind == LoopCompleted {
      var front, back := events[..i + 1], events[i + 1..];
      assert events == front + back;
      AfterConcat(p, front, back);
      LastStep(p, front);
      CompletionEnds(After(p, front[..i]));
      StuckWhenDone(After(p, front), back);
    }
    OnlyCompletionIsDone(After(p, events[..n]), events[n].kind);
  }

  lemma {:induction false} AtIterationLength(types: seq<EventType>, i: int)
    ensures |AtIteration(types, i)| == |types|
  {
    if types != [] {
      AtIterationLength(types[..|types| - 1], i);
    }
  }

  /** A run of `limit` iterations emits at most eight events each, and one more. */
  lemma {:induction false} RunLength(turns: nat -> Turn, i: nat, limit: int)
    ensures |RunEvents(turns, i, limit)| <= if i > limit then 1 else 8 * (limit - i + 1) + 1
    decreases limit - i
  {
    if i <= limit {
      AtIterationLength(TurnTypes(turns(i)), i);
      if !Ends(turns(i)) {
        RunLength(turns, i + 1, limit);
      }
    }
  }

  // ---------- Facts about the reference run ----------

  /** The run completes exactly when some iteration within the limit does, and stops at the first. */
  lemma {:induction false} StopIsFirstEnd(turns: nat -> Turn, i: nat, limit: int)
    requires i > 0
    ensures var n := StopAt(turns, i, limit);
      && (forall j :: i <= j < n ==> !Ends(turns(j)))
      && (n <= limit ==> Ends(turns(n)))
      && (n <= limit <==> exists j :: i <= j <= limit && Ends(turns(j)))
    decreases limit - i
  {
    var n := StopAt(turns, i, limit);
    if i <= limit && !Ends(turns(i)) {
      StopIsFirstEnd(turns, i + 1, limit);
      forall j | i <= j < n ensures !Ends(turns(j)) {
        assert j == i || i + 1 <= j;
      }
      assert forall j :: i <= j <= limit && Ends(turns(j)) ==> i + 1 <= j;
    }
    if n <= limit {
      assert Ends(turns(n));
    }
  }

  /** A record of call `k`: made in its iteration, with the observation it left. */
  ghost predicate RecordedAt(turns: nat -> Turn, n: nat, calls: seq<ToolCall>, observations: seq<Observation>, k: nat)
    requires k < |calls| && k < |observations|
  {
    var i := calls[k].iteration;
    && 0 < i <= n && Calls(turns(i))
    && calls[k].tool == turns(i).decision.tool && observations[k] == ObservationOf(turns(i))
  }

  /**
   Calls and observations go together one by one, at most one for an iteration and in their order;
   the executed ones are exactly those that were allowed.
   */
  lemma {:induction false} ExecutedAreCalls(turns: nat -> Turn, n: nat)
    ensures var calls, observations := CallsUpTo(turns, n), ObservationsUpTo(turns, n);
      && |observations| == |calls| <= n
      && (forall k :: 0 <= k < |calls| ==> RecordedAt(turns, n, calls, observations, k))
      && (forall j, k :: 0 <= j < k < |calls| ==> calls[j].iteration < calls[k].iteration)
    ensures forall c :: c in ExecutedUpTo(turns, n) <==>
      c in CallsUpTo(turns, n) && c.iteration > 0 && turns(c.iteration).allowed
  {
    if n > 0 {
      ExecutedAreCalls(turns, n - 1);
      assert forall c :: c in CallsUpTo(turns, n - 1) ==> c.iteration < n by {
        forall c | c in CallsUpTo(turns, n - 1) ensures c.iteration < n {
          var k :| 0 <= k < |CallsUpTo(turns, n - 1)| && CallsUpTo(turns, n - 1)[k] == c;
          assert RecordedAt(turns, n - 1, CallsUpTo(turns, n - 1), ObservationsUpTo(turns, n - 1), k);
        }
      }
      var calls, observations := CallsUpTo(turns, n), ObservationsUpTo(turns, n);
      forall k | 0 <= k < |calls| ensures RecordedAt(turns, n, calls, observations, k) {
        if k < |CallsUpTo(turns, n - 1)| {
          assert RecordedAt(turns, n - 1, CallsUpTo(turns, n - 1), ObservationsUpTo(turns, n - 1), k);
        }
      }
    }
  }

  // ---------- The state ledger ----------

  datatype Status = Initialized | Running | Completed | Failed | Terminated | Paused

  class ExecutionState {
    var iteration: int
    const maxIterations: int
    var status: Status
    var reasoningHistory: seq<string>
    var toolCalls: seq<ToolCall>
    var observations: seq<Observation>
    var finalResponse: Option<string>

    constructor (maxIterations: int)
      ensures this.maxIterations == maxIterations && iteration == 0 && status == Running
      ensures reasoningHistory == [] && toolCalls == [] && observations == [] && finalResponse == None
    {
      this.maxIterations := maxIterations;
      iteration, status := 0, Running;
      reasoningHistory, toolCalls, observations, finalResponse := [], [], [], None;
    }

    predicate IsTerminal()
      reads this
    {
      status == Completed || status == Failed || status == Terminated
    }

    method AddReasoning(thought: string)
      modifies this`reasoningHistory
      ensures reasoningHistory ==
        if Strip(thought) != "" then old(reasoningHistory) + [Strip(thought)] else old(reasoningHistory)
    {
      var clean := Strip(thought);
      if clean != "" {
        reasoningHistory := reasoningHistory + [clean];
      }
    }

    method RecordToolCall(tool: string)
      modifies this`toolCalls
      ensures toolCalls == old(toolCalls) + [ToolCall(iteration, tool)]
    {
      toolCalls := toolCalls + [ToolCall(iteration, tool)];
    }

    method AddObservation(obs: Observation)
      modifies this`observations
      ensures observations == old(observations) + [obs]
    {
      observations := observations + [obs];
    }

    method Complete(response: string)
      modifies this`status, this`finalResponse
      ensures status == Completed && finalResponse == Some(response)
    {
      status, finalResponse := Completed, Some(response);
    }

    method Terminate()
      modifies this`status
      ensures status == Terminated
    {
      status := Terminated;
    }
  }

  // ---------- The loop ----------

  /** The ledger agrees with the reference run after iterations 1 to `n`. */
  ghost predicate Ledger(s: ExecutionState, turns: nat -> Turn, n: nat)
    reads s
  {
    && s.toolCalls == CallsUpTo(turns, n)
    && s.observations == ObservationsUpTo(turns, n)
  }

  /** The stream has gained exactly `events`, and its listeners their copies of them. */
  ghost predicate Emitted(before: Stream, now: Stream, events: seq<LoopEvent>) {
    && now.subs == before.subs
    && now.history == before.history + events
    && forall l :: Inbox(now.inbox, l) == Inbox(before.inbox, l) + Delivered(before.subs, events, l)
  }

  lemma EmittedNext(before: Stream, now: Stream, events: seq<LoopEvent>, after: Stream, e: LoopEvent)
    requires Emitted(before, now, events) && Step(now, Emit(e), after)
    ensures Emitted(before, after, events + [e])
  {
    assert (events + [e])[..|events|] == events;
  }

  /** What a call that completes the task hands back. */
  function SolutionOf(t: Turn): string
    requires Calls(t)
  {
    if t.decision.summary != "" then t.decision.summary else t.evidence
  }

  lemma CallOutcome(t: Turn)
    requires Calls(t)
    ensures t.decision.CallTool? && (Ends(t) <==> t.allowed && CompletesTask(t.decision.tool))
    ensures Ends(t) ==> FinalText(t) == SolutionOf(t)
  {
    hide CompletesTask;
  }

  class AgentExecutionLoop {
    const stream: EventStream
    /** The calls handed to the tool dispatcher. */
    ghost var executed: seq<ToolCall>

    constructor (stream: EventStream)
      ensures this.stream == stream && executed == []
    {
      this.stream := stream;
      executed := [];
    }

    /** Emits one event and extends the account of what this run has emitted. */
    method Announce(kind: EventType, i: int, ghost start: Stream, ghost events: seq<LoopEvent>)
      returns (ghost more: seq<LoopEvent>)
      requires Emitted(start, stream.View(), events)
      modifies stream`history, stream`inbox
      ensures more == events + [LoopEvent(kind, i)] && Emitted(start, stream.View(), more)
    {
      ghost var now := stream.View();
      stream.EmitEvent(kind, i);
      EmittedNext(start, now, events, stream.View(), LoopEvent(kind, i));
      more := events + [LoopEvent(kind, i)];
    }

    /** Phase 5: records the observation and announces the update. */
    method StateUpdate(
        state: ExecutionState, obs: Observation, i: int, ghost start: Stream, ghost events: seq<LoopEvent>)
      returns (ghost more: seq<LoopEvent>)
      requires Emitted(start, stream.View(), events)
      modifies state`observations, stream`history, stream`inbox
      ensures state.observations == old(state.observations) + [obs]
      ensures more == events + [LoopEvent(StateUpdated, i)] && Emitted(start, stream.View(), more)
    {
      state.AddObservation(obs);
      more := Announce(StateUpdated, i, start, events);
    }

    /** Phase 6: announces a rebuilt context, when there was one. */
    method ContextRebuild(rebuilt: bool, i: int, ghost start: Stream, ghost events: seq<LoopEvent>)
      returns (ghost more: seq<LoopEvent>)
      requires Emitted(start, stream.View(), events)
      modifies stream`history, stream`inbox
      ensures more == (if rebuilt then events + [LoopEvent(ContextRebuilt, i)] else events)
      ensures Emitted(start, stream.View(), more)
    {
      more := events;
      if rebuilt {
        more := Announce(ContextRebuilt, i, start, events);
      }
    }

    /** Phase 2, refused: the denial is announced and observed. */
    method Deny(
        state: ExecutionState, t: Turn, i: nat, ghost start: Stream, ghost events: seq<LoopEvent>,
        ghost sofar: seq<LoopEvent>)
      returns (ghost more: seq<LoopEvent>)
      requires Calls(t) && !t.allowed
      requires sofar == events + AtIteration([ReasoningStarted, ReasoningCompleted], i)
      requires Emitted(start, stream.View(), sofar)
      modifies state`observations, stream`history, stream`inbox
      ensures state.observations == old(state.observations) + [ObservationOf(t)]
      ensures more == events + AtIteration(TurnTypes(t), i) && Emitted(start, stream.View(), more)
    {
      hide Emitted, TurnTypes, AtIteration, Delivered, Copies;
      more := Announce(PermissionDenied, i, start, sofar);
      more := StateUpdate(state, Observation(t.decision.tool, true), i, start, more);
      more := ContextRebuild(t.rebuilt, i, start, more);
      DeniedEvents(t, events, i);
    }

    /** Phases 3 to 6 of an allowed call: executed, observed, and the end of the task or a rebuilt context. */
    method Execute(
        state: ExecutionState, t: Turn, i: nat, ghost start: Stream, ghost events: seq<LoopEvent>,
        ghost sofar: seq<LoopEvent>)
      returns (ended: bool, ghost more: seq<LoopEvent>)
      requires Calls(t) && t.allowed && state.status == Running
      requires sofar == events + AtIteration([ReasoningStarted, ReasoningCompleted], i)
      requires Emitted(start, stream.View(), sofar)
      modifies this`executed, stream`history, stream`inbox
      modifies state`observations, state`status, state`finalResponse
      ensures ended <==> CompletesTask(t.decision.tool)
      ensures state.status == (if ended then Completed else Running)
      ensures state.finalResponse == if ended then Some(SolutionOf(t)) else old(state.finalResponse)
      ensures state.observations == old(state.observations) + [ObservationOf(t)]
      ensures executed == old(executed) + [ToolCall(i, t.decision.tool)]
      ensures more == events + AtIteration(TurnTypes(t), i) && Emitted(start, stream.View(), more)
    {
      hide Emitted, TurnTypes, AtIteration, Delivered, Copies;
      var tool := t.decision.tool;
      more := Announce(ToolSelected, i, start, sofar);
      more := Announce(ToolExecutionStarted, i, start, more);
      executed := executed + [ToolCall(i, tool)];
      more := Announce(ToolExecutionCompleted, i, start, more);
      more := Announce(ObservationProduced, i, start, more);
      more := StateUpdate(state, Observation(tool, t.isError), i, start, more);
      ExecutedEvents(t, events, i);
      if tool == "complete_task" || tool == "finish_task" || tool == "submit_solution" {
        state.Complete(if t.decision.summary != "" then t.decision.summary else t.evidence);
        more := Announce(LoopCompleted, i, start, more);
        return true, more;
      }
      more := ContextRebuild(t.rebuilt, i, start, more);
      ended := false;
    }

    /** Phases 2 to 6 for a tool call: ask permission, then deny, or execute and observe. */
    method HandleCall(state: ExecutionState, t: Turn, i: nat, ghost start: Stream, ghost events: seq<LoopEvent>)
      returns (ended: bool, ghost more: seq<LoopEvent>)
      requires Calls(t) && state.status == Running && state.iteration == i
      requires Emitted(start, stream.View(), events + AtIteration([ReasoningStarted, ReasoningCompleted], i))
      modifies this`executed, stream`history, stream`inbox
      modifies state`toolCalls, state`observations, state`status, state`finalResponse
      ensures ended <==> Ends(t)
      ensures state.status == (if ended then Completed else Running)
      ensures state.finalResponse == if ended then Some(FinalText(t)) else old(state.finalResponse)
      ensures state.toolCalls == old(state.toolCalls) + [ToolCall(i, t.decision.tool)]
      ensures state.observations ==
        old(state.observations) + [ObservationOf(t)]
      ensures executed == if t.allowed then old(executed) + [ToolCall(i, t.decision.tool)] else old(executed)
      ensures more == events + AtIteration(TurnTypes(t), i) && Emitted(start, stream.View(), more)
    {
      hide *;
      ghost var sofar := events + AtIteration([ReasoningStarted, ReasoningCompleted], i);
      CallOutcome(t);
      state.RecordToolCall(t.decision.tool);
      if !t.allowed {
        more := Deny(state, t, i, start, events, sofar);
        ended := false;
      } else {
        ended, more := Execute(state, t, i, start, events, sofar);
      }
    }

    /** Phases 1 to 6 of one iteration. */
    method TakeTurn(state: ExecutionState, t: Turn, i: nat, ghost start: Stream, ghost events: seq<LoopEvent>)
      returns (ended: bool, ghost more: seq<LoopEvent>)
      requires state.status == Running && state.iteration == i && Emitted(start, stream.View(), events)
      modifies this`executed, stream`history, stream`inbox
      modifies state`reasoningHistory, state`toolCalls, state`observations, state`status, state`finalResponse
      ensures ended <==> Ends(t)
      ensures state.status == (if ended then Completed else Running)
      ensures state.finalResponse == if ended then Some(FinalText(t)) else old(state.finalResponse)
      ensures state.toolCalls ==
        if Calls(t) then old(state.toolCalls) + [ToolCall(i, t.decision.tool)] else old(state.toolCalls)
      ensures state.observations ==
        if Calls(t) then old(state.observations) + [ObservationOf(t)]
        else old(state.observations)
      ensures executed == if Executes(t) then old(executed) + [ToolCall(i, t.decision.tool)] else old(executed)
      ensures more == events + AtIteration(TurnTypes(t), i) && Emitted(start, stream.View(), more)
    {
      hide Emitted, TurnTypes, AtIteration, CompletesTask;
      ReasonedEvents(events, i);
      more := Announce(ReasoningStarted, i, start, events);
      state.AddReasoning(t.thought);
      more := Announce(ReasoningCompleted, i, start, more);
      if !Calls(t) {
        // The model finished, or called no tool.
        state.Complete(
          match t.decision
          case Finish(response) =>
            if response != "" then response else if t.thought != "" then t.thought else "Task completed."
          case CallTool(_, _) => t.thought);
        more := Announce(LoopCompleted, i, start, more);
        FinishedEvents(t, events, i);
        return true, more;
      }
      ended, more := HandleCall(state, t, i, start, events);
    }

    /**
     The whole run. It stops in the iteration `StopAt` gives, completed if that is within the
     limit; the ledger, the executed calls and the emitted events are those of the reference run.
     */
    method Run(maxIterations: int, turns: nat -> Turn) returns (state: ExecutionState)
      modifies this`executed, stream`history, stream`inbox
      ensures fresh(state) && state.IsTerminal()
      ensures var n := StopAt(turns, 1, maxIterations);
        && state.iteration == n
        && state.status == (if n <= maxIterations then Completed else Terminated)
        && state.finalResponse == (if n <= maxIterations then Some(LastText(turns, n)) else None)
        && Ledger(state, turns, LastTurn(n, maxIterations))
        && executed == old(executed) + ExecutedUpTo(turns, LastTurn(n, maxIterations))
      ensures Emitted(old(stream.View()), stream.View(), RunEvents(turns, 1, maxIterations))
    {
      hide TurnTypes, AtIteration, FinalText, Ends, Calls, Executes, Emitted;
      hide StopAt, CallsUpTo, ExecutedUpTo, ObservationsUpTo, RunEvents, Tallies;
      ghost var start := stream.View();
      ghost var events: seq<LoopEvent> := [];
      NothingEmitted(start);
      NothingRecorded(turns, executed);
      state := new ExecutionState(maxIterations);
      while !state.IsTerminal()
        invariant fresh(state) && state.maxIterations == maxIterations && 0 <= state.iteration
        invariant state.status == Running && state.finalResponse == None
        invariant StopAt(turns, state.iteration + 1, maxIterations) == StopAt(turns, 1, maxIterations)
        invariant Tallies(turns, state.iteration, state.toolCalls, state.observations, executed, old(executed))
        invariant Emitted(start, stream.View(), events)
        invariant events + RunEvents(turns, state.iteration + 1, maxIterations) == RunEvents(turns, 1, maxIterations)
        decreases maxIterations - state.iteration
      {
        state.iteration := state.iteration + 1;
        var i := state.iteration;
        StopNext(turns, i, maxIterations);
        RunEventsNext(turns, i, maxIterations, events);
        if i > state.maxIterations {
          TalliesMean(turns, i - 1, state.toolCalls, state.observations, executed, old(executed));
          state.Terminate();
          events := Announce(LoopCompleted, i, start, events);
          break;
        }
        ghost var calls, observations, ran := state.toolCalls, state.observations, executed;
        var ended;
        ended, events := TakeTurn(state, turns(i), i, start, events);
        TalliesNext(turns, i, calls, observations, ran, old(executed));
        if ended {
          TalliesMean(turns, i, state.toolCalls, state.observations, executed, old(executed));
          break;
        }
      }
    }
  }

  lemma NothingEmitted(start: Stream)
    ensures Emitted(start, start, [])
  {
  }

  /** The records of a run that has done `n` iterations of the reference run. */
  ghost predicate Tallies(
      turns: nat -> Turn, n: nat, calls: seq<ToolCall>, observations: seq<Observation>,
      executed: seq<ToolCall>, before: seq<ToolCall>)
  {
    && calls == CallsUpTo(turns, n) && observations == ObservationsUpTo(turns, n)
    && executed == before + ExecutedUpTo(turns, n)
  }

  /** One turn moves the records on by one iteration of the reference run. */
  lemma TalliesNext(
      turns: nat -> Turn, i: nat, calls: seq<ToolCall>, observations: seq<Observation>,
      executed: seq<ToolCall>, before: seq<ToolCall>)
    requires i > 0 && Tallies(turns, i - 1, calls, observations, executed, before)
    ensures var t := turns(i);
      Tallies(turns, i,
        if Calls(t) then calls + [ToolCall(i, t.decision.tool)] else calls,
        if Calls(t) then observations + [ObservationOf(t)] else observations,
        if Executes(t) then executed + [ToolCall(i, t.decision.tool)] else executed, before)
  {
  }

  lemma TalliesMean(
      turns: nat -> Turn, n: nat, calls: seq<ToolCall>, observations: seq<Observation>,
      executed: seq<ToolCall>, before: seq<ToolCall>)
    requires Tallies(turns, n, calls, observations, executed, before)
    ensures calls == CallsUpTo(turns, n) && observations == ObservationsUpTo(turns, n)
    ensures executed == before + ExecutedUpTo(turns, n)
  {
  }

  lemma NothingRecorded(turns: nat -> Turn, executed: seq<ToolCall>)
    ensures Tallies(turns, 0, [], [], executed, executed)
  {
  }

  lemma StopNext(turns: nat -> Turn, i: nat, limit: int)
    requires i > 0
    ensures StopAt(turns, i, limit) == if i > limit || Ends(turns(i)) then i else StopAt(turns, i + 1, limit)
  {
  }

  lemma RunEventsNext(turns: nat -> Turn, i: nat, limit: int, events: seq<LoopEvent>)
    ensures events + RunEvents(turns, i, limit) ==
      if i > limit then events + [LoopEvent(LoopCompleted, i)]
      else if Ends(turns(i)) then events + AtIteration(TurnTypes(turns(i)), i)
      else events + AtIteration(TurnTypes(turns(i)), i) + RunEvents(turns, i + 1, limit)
  {
  }

  /** The last iteration that took a turn. */
  function LastTurn(n: nat, limit: int): (r: nat)
    requires n > 0
  {
    if n <= limit then n else n - 1
  }

  function LastText(turns: nat -> Turn, n: nat): string {
    if Ends(turns(n)) then FinalText(turns(n)) else ""
  }

  lemma ReasonedEvents(events: seq<LoopEvent>, i: int)
    ensures events + AtIteration([ReasoningStarted, ReasoningCompleted], i) ==
      events + [LoopEvent(ReasoningStarted, i)] + [LoopEvent(ReasoningCompleted, i)]
  {
    var none: seq<EventType> := [];
    AtIterationSnoc(none, ReasoningStarted, i);
    AtIterationSnoc([ReasoningStarted], ReasoningCompleted, i);
    assert none + [ReasoningStarted] == [ReasoningStarted];
    assert [ReasoningStarted] + [ReasoningCompleted] == [ReasoningStarted, ReasoningCompleted];
    assert AtIteration(none, i) == [];
  }

  lemma FinishedEvents(t: Turn, events: seq<LoopEvent>, i: int)
    requires !Calls(t)
    ensures events + AtIteration(TurnTypes(t), i) ==
      events + AtIteration([ReasoningStarted, ReasoningCompleted], i) + [LoopEvent(LoopCompleted, i)]
  {
    AtIterationSnoc([ReasoningStarted, ReasoningCompleted], LoopCompleted, i);
  }

  lemma DeniedEvents(t: Turn, events: seq<LoopEvent>, i: int)
    requires Calls(t) && !t.allowed
    ensures var sofar := events + AtIteration([ReasoningStarted, ReasoningCompleted], i)
        + [LoopEvent(PermissionDenied, i)] + [LoopEvent(StateUpdated, i)];
      events + AtIteration(TurnTypes(t), i) == if t.rebuilt then sofar + [LoopEvent(ContextRebuilt, i)] else sofar
  {
    hide AtIteration;
    var r := [ReasoningStarted, ReasoningCompleted];
    var u := r + [PermissionDenied] + [StateUpdated];
    AtIterationSnoc(r, PermissionDenied, i);
    AtIterationSnoc(r + [PermissionDenied], StateUpdated, i);
    AtIterationSnoc(u, ContextRebuilt, i);
    assert TurnTypes(t) == if t.rebuilt then u + [ContextRebuilt] else u;
  }

  lemma ExecutedEvents(t: Turn, events: seq<LoopEvent>, i: int)
    requires Calls(t) && t.allowed
    ensures var sofar := events + AtIteration([ReasoningStarted, ReasoningCompleted], i)
        + [LoopEvent(ToolSelected, i)] + [LoopEvent(ToolExecutionStarted, i)]
        + [LoopEvent(ToolExecutionCompleted, i)] + [LoopEvent(ObservationProduced, i)]
        + [LoopEvent(StateUpdated, i)];
      events + AtIteration(TurnTypes(t), i) ==
        if CompletesTask(t.decision.tool) then sofar + [LoopEvent(LoopCompleted, i)]
        else if t.rebuilt then sofar + [LoopEvent(ContextRebuilt, i)] else sofar
  {
    hide AtIteration, CompletesTask;
    var r := [ReasoningStarted, ReasoningCompleted];
    var s := r + [ToolSelected] + [ToolExecutionStarted];
    var o := s + [ToolExecutionCompleted] + [ObservationProduced];
    var u := o + [StateUpdated];
    AtIterationSnoc(r, ToolSelected, i);
    AtIterationSnoc(r + [ToolSelected], ToolExecutionStarted, i);
    AtIterationSnoc(s, ToolExecutionCompleted, i);
    AtIterationSnoc(s + [ToolExecutionCompleted], ObservationProduced, i);
    AtIterationSnoc(o, StateUpdated, i);
    AtIterationSnoc(u, LoopCompleted, i);
    AtIterationSnoc(u, ContextRebuilt, i);
    assert TurnTypes(t) ==
      (if CompletesTask(t.decision.tool) then u + [LoopCompleted]
       else if t.rebuilt then u + [ContextRebuilt] else u);
  }

  /**
   What every run's result says: calls are bounded by the limit, each has its own observation, the
   permitted calls and no others are executed, and the observation of a denied call is an error.
   */
  lemma RunBounds(turns: nat -> Turn, limit: int, s: ExecutionState)
    requires Ledger(s, turns, LastTurn(StopAt(turns, 1, limit), limit))
    ensures |s.observations| == |s.toolCalls| <= if limit < 0 then 0 else limit
    ensures var done := ExecutedUpTo(turns, LastTurn(StopAt(turns, 1, limit), limit));
      && (forall c :: c in done ==> c in s.toolCalls)
      && forall k :: 0 <= k < |s.toolCalls| ==>
           var c := s.toolCalls[k];
           && c.iteration > 0 && Calls(turns(c.iteration)) && s.observations[k] == ObservationOf(turns(c.iteration))
           && (c in done <==> turns(c.iteration).allowed)
           && s.observations[k].tool == c.tool == turns(c.iteration).decision.tool
           && (s.observations[k].isError <==> c !in done || turns(c.iteration).isError)
  {
    var n := LastTurn(StopAt(turns, 1, limit), limit);
    ExecutedAreCalls(turns, n);
    hide CallsUpTo, ObservationsUpTo, ExecutedUpTo, StopAt;
    var calls, observations, done := s.toolCalls, s.observations, ExecutedUpTo(turns, n);
    assert calls == CallsUpTo(turns, n) && observations == ObservationsUpTo(turns, n);
    forall k | 0 <= k < |calls|
      ensures calls[k].iteration > 0 && Calls(turns(calls[k].iteration))
      ensures observations[k] == ObservationOf(turns(calls[k].iteration))
      ensures calls[k] in done <==> turns(calls[k].iteration).allowed
      ensures observations[k].tool == calls[k].tool == turns(calls[k].iteration).decision.tool
      ensures observations[k].isError <==> calls[k] !in done || turns(calls[k].iteration).isError
    {
      assert calls[k] in calls;
      assert RecordedAt(turns, n, calls, observations, k);
    }
  }

  /** A run completes exactly when some turn within the limit completes the task. */
  lemma CompletesIff(turns: nat -> Turn, limit: int)
    ensures StopAt(turns, 1, limit) <= limit <==> exists j: nat :: 1 <= j <= limit && Ends(turns(j))
  {
    StopIsFirstEnd(turns, 1, limit);
    var n := StopAt(turns, 1, limit);
    if n <= limit {
      assert Ends(turns(n));
    }
  }

  /** The events of a run form a word of the phase language with one completion event, the last. */
  lemma RunEventsShape(turns: nat -> Turn, limit: int, i: nat)
    requires i < |RunEvents(turns, 1, limit)|
    ensures After(Head, RunEvents(turns, 1, limit)) == Done
    ensures RunEvents(turns, 1, limit)[i].kind == LoopCompleted <==> i == |RunEvents(turns, 1, limit)| - 1
    ensures |RunEvents(turns, 1, limit)| <= 8 * (if limit < 0 then 0 else limit) + 1
  {
    RunFollowsPhases(Head, turns, 1, limit);
    CompletedOnceAndLast(Head, RunEvents(turns, 1, limit), i);
    RunLength(turns, 1, limit);
  }

  /**
   Every listener receives the run's events in order, each once per matching subscription; one with a
   single subscription, exactly the matching events.
   */
  lemma ListenerReceivesRun(before: Stream, now: Stream, turns: nat -> Turn, limit: int, listener: ListenerId)
    requires Emitted(before, now, RunEvents(turns, 1, limit))
    ensures var events := RunEvents(turns, 1, limit);
      && Inbox(now.inbox, listener) == Inbox(before.inbox, listener) + Spread(before.subs, events, listener)
      && forall s: Subscription :: s.listener == listener && OnlySubscription(before.subs, s) ==>
        Inbox(now.inbox, listener) == Inbox(before.inbox, listener) + Matching(events, s)
  {
    var events := RunEvents(turns, 1, limit);
    hide RunEvents;
    DeliveredPerSubscription(before.subs, events, listener);
    forall s: Subscription | s.listener == listener && OnlySubscription(before.subs, s)
      ensures Delivered(before.subs, events, listener) == Matching(events, s)
    {
      DeliveredToOne(before.subs, s, events);
    }
  }
}

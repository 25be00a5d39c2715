# Verified models of the orchestrator's core algorithms

This project models the loops, state machines and arithmetic at the core of the orchestrator and
proves what they promise, in Dafny 4.11. `dafny verify dfyconfig.toml` checks all of it.

What is modelled, module by module:

- `Admissions`, `Throttler`, `ThrottlerRuns`, `ThrottlerObject`: the rate limiter and concurrency
  gate of the language-model client, as interleaved steps of any number of threads over a
  non-decreasing clock, with the full history of admissions kept beside the pruned list; and as
  an object used by one caller.
- `Waves`, `WaveChains`, `WaveFallback`, `WaveLayers`, `PlanWaves`: the dependency waves shown for a
  session, with the fallback for cycles and dangling ids, compared with dependency chains and with
  the least closed set of resolved ids.
- `TaskGraph`, `TaskDag`, `TaskPasses`, `TaskSettling`, `TaskOrphans`: the plan's graph (depth-first
  cycle check, topological sort, search for dependents), the scheduling pass that changes task states
  while it looks for ready tasks, what one pass and repeated passes come to, and the tasks that can
  never run.
- `TaskTree`: the task forest, built by linking shared nodes whose child lists still grow.
- `ToolMachine`, `ToolRuns`, `ToolOutcomes`, `ToolObjects`: the tool lifecycle, on values with the
  provenance of each tool and with where each operation leaves its tool, and as the objects the program
  updates, each method proved equal to its operation on values.
- `SkillEnforcer`, `SchemaRouter`, `ToolPolicies`: the three users of the tool lifecycle, the last with
  the program's catalog of tools (`ToolCatalog`); and what the first two report and expose, told from the
  table before the call and the answers of the probes (`DiscoveryOutcomes`, `SkillOutcomes`,
  `RequestOutcomes`).
- `EventStreams`, `AgentLoop`: the event stream and the agent loop that writes to it.
- `Ranking`, `RankingWeights`, `Dedup`, `LogCompression`, `Whitespace`, `Budget`, `Assembler`: selection,
  deduplication, compression and budgeting of prompt context.
- `GroundTruth`, `Reviewer`, `Workflow`: the verification gates, the review agent's veto, the bounded
  replanning loop and the final status.
- `Tokens`, `Utf8`, `ByteTokens`: counting and cutting texts by tokens, for any encoder, and for
  those whose tokens stand for bytes.
- `Text`, `Lines`, `Tasks`, `Pigeonhole`, `Wrappers`: strings, lines, task identifiers, counting
  lemmas and optional values used by the others.

Answers from outside (models, permission checkers, probes, registries, analysers, clocks, the
similarity ratio, the tokenizer, the sort of the plain ranking branch) are parameters, and the
theorems hold for all of them, under the laws a theorem names.

Where the program and its documentation disagree, the model follows the program, and a theorem
says exactly when the documented rule holds:

- A rate limit below one admits nobody, and the first caller raises and loses its permit for good
  (`ThrottlerRuns.LimitBelowOneAdmitsNobody`, `ThrottlerRuns.FirstCallerRaisesIff`).
- The router's tools are not "filtered strictly": tools made executable by an earlier request stay
  exposed unless discovery reports them again (`SchemaRouter.ScopedIff`,
  `ToolPolicies.RouterExposesStaleTool`).
- Merging policies does not choose the most restrictive constraints (`ToolPolicies.MergeRestrictsIff`
  for all names, `ToolPolicies.MergeOfAlikeRestrictsIff` for one, `ToolPolicies.MergeCanWiden`), and can
  lift a ban (`ToolPolicies.MergeLiftsBanIff`, `ToolPolicies.MergeLiftsOtherBanIff`,
  `ToolPolicies.MergeCanLiftBan`).
- The public `transition` of the tool machine is not guarded (`ToolMachine.TransitionKeepsIff`,
  `ToolMachine.RawTransitionBreaksRule`).
- The final status of a run halted at its limit is STOPPED only from a limit of three on
  (`Workflow.StatusFollowsLimitIff`, `Workflow.LowLimitIsMisreported`).
- `max_lines` does not bound a compressed log (`LogCompression.CompressedLength`,
  `LogCompression.ErrorsAreAllKept`).
- The default allocations fit the budget only from 497 tokens on (`Budget.AllocationsFitIff`), and
  the reported total can include what an earlier compile consumed (`Budget.ReportIsExactIff`,
  `Budget.OldDiffIsReported`).
- Essential sections that fit the limit can still exceed it (`Assembler.OverLimitIffCrowded`,
  `Assembler.LimitIsKept`, `Assembler.EssentialCanComeTooLate`).
- After a failed or cancelled task the scheduler can leave tasks pending that will never run
  (`TaskOrphans.PassLeavesNoOrphansIff`, `TaskOrphans.FailureLeavesTasksPending`).
- A passed verification matrix can have missed failed tests (`Reviewer.MissedFailureIff`,
  `Reviewer.MatrixCanMissFailedTests`).

## Model

| member | source | states |
|---|---|---|
| Admissions.SpacedBoundsWindow | agent_orchestrator/llm.py:38-45 | If every admission is at least 60 s later than the one `requests_per_minute` places before it, then every half-open 60-second window holds at most that many. |
| Admissions.PruningRefinesFiltering | agent_orchestrator/llm.py:39 | Pruning the short list gives the same answer as filtering the full history of admissions, as long as the list is what earlier pruning left of it. |
| Admissions.RecentAtMostRpm | agent_orchestrator/llm.py:39-40 | A well-spaced history never has more than the limit of entries younger than 60 s, so a full list has exactly the limit. |
| Admissions.SleepingIsAdmissible | agent_orchestrator/llm.py:40-45 | With a full window the computed sleep is positive and bounded, and any wake-up no earlier than asked keeps the spacing. |
| Admissions.WakeUpIs | agent_orchestrator/llm.py:40-43 | With a full window, the sleep ends exactly 60.1 s after the admission `requests_per_minute` places from the end of the whole history. |
| Admissions.AdmissibleMeans | agent_orchestrator/llm.py:39-43 | A time keeps the spacing exactly when it is at least 60 s after the admission that many places back, or there is none. |
| Admissions.SleepIsShortest | agent_orchestrator/llm.py:40-43 | No admissible time from now on is more than 0.1 s before the end of the sleep, so a caller waits no longer than needed. |
| Admissions.RecentMeans | agent_orchestrator/llm.py:39 | The pruned list is the part of the history less than 60 s old, entry by entry. |
| ThrottlerRuns.WindowBound | agent_orchestrator/llm.py:35-45 | In every reachable state of every interleaving of threads over a non-decreasing clock, every half-open 60-second window holds at most `requests_per_minute` admissions (limit at least one). |
| ThrottlerRuns.InFlightBound | agent_orchestrator/llm.py:25-48 | In every reachable state free permits plus holders equal `max_concurrency`, so no more requests are in flight than that. |
| ThrottlerRuns.MutualExclusion | agent_orchestrator/llm.py:37-45 | Two threads are never inside the critical section together. |
| ThrottlerRuns.PrunedListIsTheWindow | agent_orchestrator/llm.py:38-40 | Once a thread has pruned, the list holds exactly the admissions of the whole log younger than 60 s, at most the limit of them, and a sleep computed from a full list is between 0.1 s and 60.1 s. |
| ThrottlerRuns.WaitIsExact | agent_orchestrator/llm.py:38-43 | In every reachable state, a sleeper whose clock reading still stands wakes exactly 60.1 s after the log entry `requests_per_minute` places from the end. |
| ThrottlerRuns.ListIsOwned | agent_orchestrator/llm.py:37-45 | While a thread is in the critical section no move of another thread changes the list, the log or its place. |
| ThrottlerRuns.LimitBelowOneAdmitsNobody | agent_orchestrator/llm.py:35-45 | With a limit below one nobody is ever admitted, in any run: the code indexes an empty list instead. |
| ThrottlerRuns.FirstCallerRaisesIff | agent_orchestrator/llm.py:35-45 | The first caller raises, and leaves with a permit lost, exactly when the limit is below one. |
| ThrottlerRuns.SomeoneCanGoOn | agent_orchestrator/llm.py:35-48 | The gate never deadlocks: while a thread is busy some thread can take a step, at once or after a sleeper's time has come. |
| Throttler.RunKeepsInv | agent_orchestrator/llm.py:25-48 | The invariant tying semaphore, lock, list and full history together holds after every move of every run. |
| ThrottlerObject.ConcurrencyThrottler.constructor | agent_orchestrator/llm.py:22-27 | A new gate has all its permits and an empty list. |
| ThrottlerObject.ConcurrencyThrottler.Enter | agent_orchestrator/llm.py:35-45 | An entry by one caller: the list becomes the recent admissions plus the new one, the history grows by it and stays well spaced, one permit is taken; with a limit below one it raises and the permit is lost. |
| ThrottlerObject.ConcurrencyThrottler.WindowBoundHolds | agent_orchestrator/llm.py:35-45 | What a valid gate promises about every window of its history. |
| ThrottlerObject.ConcurrencyThrottler.Exit | agent_orchestrator/llm.py:47-48 | Leaving returns the permit and changes nothing else. |
| WaveChains.WaveIsLongestChain | agent_orchestrator/server.py:1152-1171 | The wave of a task that can be resolved is the length of its longest dependency chain: a chain of that length exists, and none is longer. |
| WaveChains.DependencyIsEarlier | agent_orchestrator/server.py:1158-1171 | A dependency is always in a strictly earlier wave. |
| WaveFallback.StuckIffCycleOrMissing | agent_orchestrator/server.py:1162-1167 | A task is left for the fallback wave exactly when its dependencies lead to a cycle or to an id that no task has. |
| Waves.StuckIffOutsideLeastClosedSet | agent_orchestrator/server.py:1152-1167 | Equally, when it is outside the least set of ids closed under "all dependencies resolved". |
| Waves.ResolvedIsLeast | agent_orchestrator/server.py:1152-1171 | The ids the rounds resolve form a closed set contained in every closed set. |
| WaveLayers.ComputeWaves | agent_orchestrator/server.py:1150-1167 | The loop terminates on any input and produces one wave for each round of resolution, then one wave of the stuck tasks if there are any; counted with multiplicity no id is lost or added. |
| WaveLayers.TakeWave | agent_orchestrator/server.py:1153-1161 | One pass splits what remains into the ready ids and the tasks put back, both in order. |
| WaveLayers.AcyclicHasNoFallback | agent_orchestrator/server.py:1162-1167 | There is no fallback wave exactly when no task leads to a cycle or a missing id. |
| WaveLayers.FallbackIsStuck | agent_orchestrator/server.py:1162-1165 | When a pass takes nothing, what remains is exactly the set of stuck tasks. |
| WaveLayers.IndexWaves | agent_orchestrator/server.py:1169-1171 | The index gives each id the last wave that lists it, and only listed ids. |
| WaveLayers.ShownWave | agent_orchestrator/server.py:1150-1171 | With distinct ids the index of a task is its longest chain, or the fallback wave if it is stuck. |
| WaveLayers.IdInOneWave | agent_orchestrator/server.py:1150-1171 | With distinct ids a task is listed in one wave only. |
| TaskGraph.HasCycle | agent_orchestrator/runtime/task_graph.py:863-874 | The recursive search from one task: a finding means there is a cycle; without one the task and all it reaches are finished, each after its dependencies. |
| TaskGraph.DetectCycles | agent_orchestrator/runtime/task_graph.py:858-880 | The search reports a cycle exactly when the dependency graph has one. |
| TaskGraph.TopologicalSort | agent_orchestrator/runtime/task_graph.py:882-903 | All tasks, each once and after everything it depends on; no result (the source raises) exactly when there is a cycle. |
| TaskGraph.Visit | agent_orchestrator/runtime/task_graph.py:891-898 | The recursive visit extends the order by the task and what it needs, and keeps every listed task behind its dependencies. |
| TaskGraph.ListedIsAcyclic | agent_orchestrator/runtime/task_graph.py:882-903 | A graph whose tasks can all be listed after their dependencies has no cycle. |
| TaskGraph.AcyclicCanBeListed | agent_orchestrator/runtime/task_graph.py:882-903 | A graph without a cycle can be listed like that. |
| TaskGraph.GetDescendants | agent_orchestrator/runtime/task_graph.py:786-806 | The breadth-first search returns exactly the tasks that depend on the target, directly or over other tasks, whether or not the target is a task and whether or not there are cycles. |
| TaskGraph.BuildChildren | agent_orchestrator/runtime/task_graph.py:792-795 | The reverse map lists a task under a name exactly when it depends on that name. |
| TaskDag.ScanDependencies | agent_orchestrator/runtime/task_graph.py:674-691 | The scan of one task's dependencies, with its early stop at a failed or skipped one, equals its specification. |
| TaskDag.SatisfiedIff | agent_orchestrator/runtime/task_graph.py:674-691 | The scan calls a task satisfied exactly when all its dependencies are tasks and completed. |
| TaskDag.PassKeeps | agent_orchestrator/runtime/task_graph.py:670-707 | The pass never completes a task or undoes a completion, and leaves every task alone that was not waiting. |
| TaskDag.ReadyIffRunnable | agent_orchestrator/runtime/task_graph.py:663-708 | The pass finds exactly the tasks that were waiting with all dependencies completed when it began, whatever it changes on the way. |
| TaskDag.ReadyIsOrderFree | agent_orchestrator/runtime/task_graph.py:672-708 | Which tasks are ready does not depend on the order of the dictionary. |
| TaskDag.SkippingDependsOnOrder | agent_orchestrator/runtime/task_graph.py:703-706 | Which tasks a single pass skips does depend on it: three chained tasks end differently in two orders. |
| TaskSettling.SettledIffUnchanged | agent_orchestrator/runtime/task_graph.py:672-707 | A pass over all tasks changes nothing exactly when every waiting task already is where its own scan puts it. |
| TaskSettling.SettledIsOutcome | agent_orchestrator/runtime/task_graph.py:663-708 | Once passes, any number and in any orders, have come to a state that further passes leave alone, each task is skipped, blocked, ready or unchanged exactly as chains and dependencies in the first states say. |
| TaskSettling.PassesAreConfluent | agent_orchestrator/runtime/task_graph.py:663-708 | So repeated passes come to the same states for every order of the dictionary. |
| TaskSettling.PassesSettle | agent_orchestrator/runtime/task_graph.py:663-708 | They come there: one pass more than there are tasks is always enough. |
| TaskSettling.OrderedPassSettles | agent_orchestrator/runtime/task_graph.py:672-707 | A single pass is enough when it comes to each task after its dependencies. |
| TaskSettling.UnskippedPassSettles | agent_orchestrator/runtime/task_graph.py:672-707 | A single pass is enough, in any order, while no task has been skipped. |
| TaskPasses.PassIsOutcome | agent_orchestrator/runtime/task_graph.py:672-707 | The states after one pass, in any order: a waiting task is skipped exactly when a chain of tasks leads from it to a skipped one and the pass comes to them with the far end first; otherwise it is blocked, ready or unchanged by its own dependencies. |
| TaskOrphans.PendingAfterPassIff | agent_orchestrator/runtime/task_graph.py:672-707 | A task is pending after a pass, in any order, exactly when it was, none of its dependencies is missing or failed, not all are completed, and the pass does not skip it; it skips none while nothing has been skipped. |
| TaskOrphans.OrphanIffPassedOver | agent_orchestrator/runtime/task_graph.py:672-707 | Call a task doomed when a chain of waiting tasks leads from it to a missing, failed, skipped or cancelled one. The pending doomed tasks after a pass, in any order, are exactly those passed over. |
| TaskOrphans.OrphanIffOverlooked | agent_orchestrator/runtime/task_graph.py:663-708 | Once passes change nothing more, the pending doomed tasks are exactly those that were pending and doomed at first, with no missing or failed dependency of their own and no chain that will skip them. |
| TaskOrphans.PassLeavesNoOrphansIff | agent_orchestrator/runtime/task_graph.py:663-669 | The documented rule that no pending task is orphaned holds after a pass, in any order, exactly when no pending doomed task was passed over: one without a missing or failed dependency of its own that the pass does not skip. |
| TaskOrphans.FailureLeavesTasksPending | agent_orchestrator/runtime/task_graph.py:663-669 | It does fail: behind a failed and a blocked task the next one is left pending although it can never run, while the pass still finds another task. |
| TaskOrphans.DoomedNeverRuns | agent_orchestrator/runtime/task_graph.py:663-708 | In any later run of passes, starts of ready tasks and ends of started ones, a doomed task stays doomed or is skipped, and no pass finds it ready. |
| TaskOrphans.MakeMove | agent_orchestrator/runtime/task_graph.py:663-775 | The moves of these runs are the calls on the plan's object: the pass over its dictionary, or a task marked. |
| TaskOrphans.CompletableIff | agent_orchestrator/runtime/task_graph.py:663-767 | In a plan that passed the cycle check some such run completes a waiting task exactly when it is not doomed. |
| TaskDag.StallsIffAllHeld | agent_orchestrator/runtime/task_graph.py:663-708 | In a plan without cycles a pass finds nothing to run exactly when from every waiting task a chain of waiting tasks leads to a missing task or to one neither waiting nor completed. |
| TaskDag.CheckedPlanNeverStalls | agent_orchestrator/runtime/task_graph.py:663-708 | In a plan without cycles and missing dependencies, while some task waits and all others are completed, a pass finds a task to run. |
| TaskDag.TaskDAG.GetReadyTasks | agent_orchestrator/runtime/task_graph.py:663-708 | The pass over the object's states gives exactly the new states and the ready list of the specification. |
| TaskDag.TaskDAG.ScheduleTask | agent_orchestrator/runtime/task_graph.py:673-707 | One task of the pass changes at most that task's state. |
| TaskDag.TaskDAG.IsAllCompleted | agent_orchestrator/runtime/task_graph.py:777-784 | True exactly when every task is completed or skipped, so for an empty plan. |
| TaskDag.UnfinishedIff | agent_orchestrator/runtime/task_graph.py:777-784 | A plan is unfinished exactly while some task is pending, ready, blocked, running, being verified, failed or cancelled. |
| PlanWaves.CyclicIffReached | agent_orchestrator/runtime/task_graph.py:858-880 | The cycle check on a plan agrees with the wave layering: it finds a cycle exactly when some task's chain comes back to itself. |
| PlanWaves.CheckedPlanIsStuckOnlyByMissing | agent_orchestrator/server.py:1162-1167 | In a plan that passed the cycle check the fallback wave holds exactly the tasks that lead to a missing id. |
| TaskTree.GetTaskTree | agent_orchestrator/state.py:212-225 | After the linking loop every node's child list holds the nodes linked to it, in order, and the roots are the tasks without a known parent; nodes are shared, and linked while their own lists still grow. |
| TaskTree.BuildNodes | agent_orchestrator/state.py:214-216 | One fresh node per task id, with an empty child list. |
| TaskTree.LinkChild | agent_orchestrator/state.py:218-224 | Linking a task appends its node to one list and leaves every other list alone. |
| TaskTree.LinksAreUnique | agent_orchestrator/state.py:217-224 | A task is listed under exactly the parent its link names, or is a root exactly when it has none. |
| TaskTree.EdgesAreParents | agent_orchestrator/state.py:217-224 | The listed edges are the parent fields themselves: a task is under a parent exactly when its own field names it, not empty and a task's id; it is a root exactly when its field is absent, empty, or no task's id. |
| TaskTree.ListsHaveNoRepeats | agent_orchestrator/state.py:217-224 | No child list and not the root list names a task twice. |
| TaskTree.WalkIsUnique | agent_orchestrator/state.py:212-225 | Two walks from the roots to the same task are the same walk, so no task appears twice. |
| TaskTree.AppearsIffChainEnds | agent_orchestrator/state.py:212-225 | A task appears in the forest exactly when its chain of parents ends at a task with an absent or unknown parent. |
| TaskTree.MissingIffOnWayToCycle | agent_orchestrator/state.py:212-225 | Otherwise its chain of parents runs into a cycle; such tasks appear nowhere. |
| TaskTree.NodeWalksAreWalks | agent_orchestrator/state.py:212-225 | The walks over the node objects that are returned are exactly the walks over their ids, through the nodes of the table. |
| TaskTree.NodeWalkIsUnique | agent_orchestrator/state.py:212-225 | So no node object is met on two walks from the returned roots. |
| ToolRuns.ExecutableIsEarned | runtime/tool_state_machine.py:75-173 | After any sequence of the operations each entry is filed under its own name, and an executable tool has, since its latest declaration or discovery, passed a probe and then an authorization that still stands. |
| ToolMachine.StageTwoIsEarned | runtime/tool_state_machine.py:321-423 | The two-stage summary of a tool's history means exactly that order of events. |
| ToolMachine.TransitionKeepsIff | runtime/tool_state_machine.py:96-115 | A raw transition keeps the rule exactly when the state it leaves has earned the one it goes to: HEALTHY or AUTHORIZED from HEALTHY, UNAUTHORIZED, AUTHORIZED or EXECUTABLE, EXECUTABLE from the last two, with a reason exactly where one belongs; and which moves keep stage and state in step. |
| ToolMachine.RawTransitionBreaksRule | runtime/tool_state_machine.py:96-115 | The public `transition` can make an unknown tool executable. |
| ToolMachine.AuthorizeKeeps | runtime/tool_state_machine.py:377-423 | An authorization request touches only the entry the name leads to, keeps the rule, and leaves an executable tool merely authorized. |
| ToolMachine.VerifyKeeps | runtime/tool_state_machine.py:321-357 | A health check touches only its own tool; a passed one makes it healthy and starts its proof over. |
| ToolMachine.DiscoverToolsKeeps | runtime/tool_state_machine.py:175-219 | Discovery keeps the rule for every table and every answer of the outside world. |
| ToolMachine.RegisterKeeps | runtime/tool_state_machine.py:151-173 | Registering and verifying keeps the rule, whether or not the probe passes. |
| ToolOutcomes.VerifyOutcome | runtime/tool_state_machine.py:321-357 | A probe: only tools past DECLARED and not MISSING are probed; one passes when its primary probe does and its checker, if any; it is left HEALTHY, or UNHEALTHY, or MISSING when it lives on a server that does not answer. |
| ToolOutcomes.AuthorizeOutcome | runtime/tool_state_machine.py:377-423 | An authorization succeeds exactly when the tool is cleared by its state or a passed probe, is on the list by name or alias, and is not refused; and the exact state every other case leaves. |
| ToolOutcomes.PromoteOutcome | runtime/tool_state_machine.py:143-149 | Promotion moves AUTHORIZED tools to EXECUTABLE and no others; an unknown tool is only declared. |
| ToolOutcomes.MarkHealthyOutcome | runtime/tool_state_machine.py:134-141 | Marking a tool healthy is no more than a probe; an unknown tool is only declared. |
| ToolOutcomes.RegisterOutcome | runtime/tool_state_machine.py:151-173 | Registration starts the tool over: EXECUTABLE needs a passed probe and the authorization flag. |
| ToolOutcomes.BrowserOutcome | runtime/capability_router.py:370-389 | A browser tool is MISSING without a server, and with one EXECUTABLE exactly when its probe passes. |
| ToolOutcomes.AliasDropsPrefix | runtime/tool_state_machine.py:402-404 | On the allowed list a tool answers to its name without any of three prefixes. |
| DiscoveryOutcomes.DiscoveryOutcome | runtime/tool_state_machine.py:175-219 | After discovery a tool is known exactly when it was or is reported; a reported one is DISCOVERED whatever it was, an unreported DECLARED one is DISCOVERED or MISSING as it can be resolved, every other is untouched; checkers are lost only to another spelling of the name. |
| DiscoveryOutcomes.FoundMeans | runtime/tool_state_machine.py:178-205 | The reported names are those of the registry and the non-empty ones of the servers, without blanks around them. |
| ToolRuns.RunKeeps | runtime/tool_state_machine.py:75-427 | Every sequence of public operations and router steps keeps the rule. |
| ToolRuns.TransitionAfterRunKeepsIff | runtime/tool_state_machine.py:96-115 | The same for a raw transition after any sequence of operations, in terms of the state a caller sees. |
| ToolObjects.ToolStateMachine.DeclareTool | runtime/tool_state_machine.py:75-94 | Declaring files a new object under the name, also in place of a known one, as the table function says, and changes no other tool. |
| ToolObjects.ToolStateMachine.Transition | runtime/tool_state_machine.py:96-115 | The move on the object is the move on the table. |
| ToolObjects.ToolStateMachine.DiscoverTools | runtime/tool_state_machine.py:175-219 | The three loops of discovery over registries, servers and the remaining declared tools equal the table function. |
| ToolObjects.ToolStateMachine.VerifyHealth | runtime/tool_state_machine.py:321-357 | The probe on the object equals the table function, for every answer of the probe. |
| ToolObjects.ToolStateMachine.Authorize | runtime/tool_state_machine.py:377-423 | The request on the object equals the table function: result, state and reason. |
| ToolObjects.ToolStateMachine.MarkHealthy | runtime/tool_state_machine.py:134-141 | Marking a tool healthy on the object equals the table function. |
| ToolObjects.ToolStateMachine.PromoteToExecutable | runtime/tool_state_machine.py:143-149 | Promotion on the object equals the table function. |
| ToolObjects.ToolStateMachine.RegisterAndVerify | runtime/tool_state_machine.py:151-173 | Registration, probe and promotion on the object equal the table function. |
| ToolObjects.ToolStateMachine.GetExecutableTools | runtime/tool_state_machine.py:425-427 | Exactly the tools in the executable state are offered. |
| SkillEnforcer.ReportPartitions | runtime/compatibility_enforcer.py:159-262 | Missing, unhealthy, unauthorized and executable split the required tools, each occurrence counted once. |
| SkillEnforcer.ValidIffNothingListed | runtime/compatibility_enforcer.py:252-262 | The report says valid exactly when the three lists of problems are empty. |
| SkillEnforcer.ValidMeansExecutable | runtime/compatibility_enforcer.py:159-262 | When the report is valid, every required tool, or the entry its alias leads to, is executable in the machine at the end, also when two names share one entry, and each has earned it. |
| SkillEnforcer.CheckFirstReady | runtime/compatibility_enforcer.py:159-250 | Successes stand while later tools are checked. |
| SkillEnforcer.CheckKeeps | runtime/compatibility_enforcer.py:160-248 | The check of one tool touches only its own entry, and the state it leaves there tells the outcome: EXECUTABLE, UNAUTHORIZED (then the list lacks the tool), or unhealthy for DECLARED, MISSING and UNHEALTHY; missing exactly when there was no entry or a MISSING one. |
| SkillEnforcer.CheckTool | runtime/compatibility_enforcer.py:160-248 | The check of one tool on the machine object gives the outcome and the table of the specification. |
| SkillEnforcer.CheckTools | runtime/compatibility_enforcer.py:159-250 | The loop over the required tools gives the outcomes and the table of the specification. |
| SkillEnforcer.ValidateSkill | runtime/compatibility_enforcer.py:130-262 | The whole validation: report and machine are those of the checks in turn after a discovery; what the report then says of each tool is stated by the three rows that follow. |
| SkillOutcomes.EntryOutcome | runtime/compatibility_enforcer.py:160-248 | The outcome of a check from the entry before it: missing, unhealthy (never probed, or the probe fails), unauthorized (healthy and not listed) or executable, and the exact state left behind. |
| SkillOutcomes.ReportedAs | runtime/compatibility_enforcer.py:159-262 | Which of the three lists names a required tool, and all four flags of its status, from its entry before the check, its probe and the allowed list; the entry is the one at the start unless an earlier name leads to it too. |
| SkillOutcomes.ReportedMissing | runtime/compatibility_enforcer.py:160-196 | A required name without an entry, own or by alias, is listed as missing only, with every flag false. |
| SkillOutcomes.DiscoveredIsReported | runtime/compatibility_enforcer.py:150-262 | A tool the validation's own discovery reports is never missing; it is unhealthy exactly when its probe fails, and unauthorized exactly when the probe passes and the list lacks it. |
| SkillOutcomes.ToolAliasDropsPrefix | runtime/compatibility_enforcer.py:175 | Required names lead to tools without the filesystem and terminal prefixes, and with the browser prefix rewritten. |
| SchemaRouter.ExposedOutsideAllowed | runtime/capability_router.py:340-396 | The tools exposed by a request beyond its allowed set are exactly those that were executable before, are not allowed now, and were not reported by this discovery. |
| SchemaRouter.ScopedIff | runtime/capability_router.py:329-396 | The documented strict filtering holds for a request exactly when no such tool exists. |
| SchemaRouter.ReportedIsScoped | runtime/capability_router.py:340-396 | A tool reported by discovery in this request is exposed only if this request allows it. |
| SchemaRouter.ExposedWasAllowed | runtime/capability_router.py:329-396 | Over any sequence of requests on a new machine, every exposed tool was in the allowed set of one of them, and is earned. |
| SchemaRouter.StaleToolIsExposed | runtime/capability_router.py:329-396 | After two requests for single tools, the tool that only the first allowed is still exposed, whatever the two tools are. |
| SchemaRouter.DiscoveryDemotes | runtime/tool_state_machine.py:175-219 | After discovery a tool is executable exactly when it was before and was not reported. |
| SchemaRouter.GetToolSchemas | runtime/capability_router.py:329-396 | The whole request on objects: the exposed names are the executable ones of the table after the steps of the request; which allowed tools those are is stated by the rows of `RequestOutcomes`. |
| RequestOutcomes.AllowedExposedIff | runtime/capability_router.py:340-396 | The other half of what is exposed: an allowed tool is, exactly when at its last place in the walk over the allowed set it is cleared by its state or by a probe. |
| RequestOutcomes.ExposedOnce | runtime/capability_router.py:340-396 | From the table before the request: an allowed tool that is reported or unknown is exposed exactly when its probe passes (its primary probe, without a checker); another by its state first: never when MISSING, always when it was HEALTHY or further, else when the probe passes. |
| RequestOutcomes.BrowserExposedOnce | runtime/capability_router.py:368-393 | A wanted browser tool is exposed exactly when its server runs and its probe passes when it is offered, or only its checker fails then and the probe of the walk passes. |
| RequestOutcomes.IngestOutcome | runtime/capability_router.py:346-366 | Filing the inventory adds exactly the allowed, catalogued and unknown names, as discovered tools, and changes no known one. |
| SchemaRouter.IngestInventory | runtime/capability_router.py:349-371 | Declaring the catalogued tools, as the specification says. |
| SchemaRouter.OfferBrowserTools | runtime/capability_router.py:373-388 | The browser tools are declared, and made executable only if their server answers. |
| SchemaRouter.GrantAllowed | runtime/capability_router.py:390-393 | Each allowed tool is probed, authorized and promoted, as the specification says. |
| ToolPolicies.IsToolAllowed | runtime/tool_policy.py:124-157 | The decision is the stated precedence of forbidden, read-only, wildcard, allowed and capability rules. |
| ToolPolicies.AllowsMeans | runtime/tool_policy.py:124-157 | Which names a policy allows in terms of its own fields: the name and what it resolves to are looked up in every set. |
| ToolPolicies.ReadOnlyBansWrites | runtime/tool_policy.py:137-141 | Reading only takes away exactly the file-writing and repository-changing tools, under any name, and nothing brings them back. |
| ToolPolicies.ResolveMeans | runtime/tool_policy.py:107-122 | A name resolves by itself without blanks, then with its colons as dots, and else stands for itself. |
| Text.StripMeans | runtime/tool_policy.py:117 | Stripping takes the blanks off both ends and nothing else. |
| ToolPolicies.FromCapabilities | runtime/tool_policy.py:205-235 | The policy built from capabilities allows by name exactly the extra names, the tools of the capabilities' groups, and the tools the capabilities are aliases of. |
| ToolPolicies.RouterRequestIsProper | runtime/tool_policy.py:205-235 | The allowed sets the router makes this way meet what the router's theorems ask of a request. |
| ToolPolicies.RouterExposesStaleTool | runtime/capability_router.py:329-396 | The policies the router builds for a task that only needs a directory listing and then for one that only needs a git status allow one tool each, and the second request exposes the first one's tool. |
| ToolPolicies.MergeAllows | runtime/tool_policy.py:170-203 | What a merge of any two policies allows, in terms of what the two ban and list, with names resolved as the merge does. |
| ToolPolicies.MergeOfAlikeRestrictsAllIff | runtime/tool_policy.py:170-203 | For any policies with the same aliases: the merge is as restrictive as both on every name, which its description promises, exactly when one of the two restricts nothing but bans, or every unbanned name is listed by both or by neither. |
| ToolPolicies.MergeRestrictsIff | runtime/tool_policy.py:170-203 | Where the listed tools go by their own names, that is a comparison of finite sets: exactly when one of the two restricts nothing but bans, or both list the same tools apart from the banned ones. |
| ToolPolicies.BuiltIsTidy | runtime/tool_policy.py:205-235 | The policies the router builds from capabilities are of that kind: every tool they list goes by its own name and is no alias; and one restricts nothing exactly when it was built from no capability. |
| ToolPolicies.MergeRestrictsNameIff | runtime/tool_policy.py:170-203 | On a single name, for any aliases: exactly when the name stays banned, or the listings agree and no ban is lost; only the policy whose alias does not stand can lose one, on what its own alias makes of the name. |
| ToolPolicies.MergeOfAlikeRestrictsIff | runtime/tool_policy.py:170-203 | With the same aliases: exactly when one of the two bans the name, or each that does not list it restricts nothing. |
| ToolPolicies.MergeLiftsBanIff | runtime/tool_policy.py:187-203 | The merge lifts a ban of the first policy exactly when the ban is on what its alias leads to, the other's alias overrides that, and neither bans the name or its new meaning. |
| ToolPolicies.MergeLiftsOtherBanIff | runtime/tool_policy.py:187-203 | And a ban of the other policy exactly when the first one's alias stands instead, and neither bans the name or that meaning. |
| ToolPolicies.MergeCanLiftBan | runtime/tool_policy.py:187-203 | Two policies whose merge allows a name that the first one bans. |
| ToolPolicies.MergeCanWiden | runtime/tool_policy.py:170-203 | Two policies whose merge allows a tool that the first one does not list. |
| EventStreams.EventStream.EmitEvent | runtime/event_stream.py:87-125 | An event is recorded, and handed to exactly the listeners subscribed to it at that time. |
| EventStreams.EventStream.AddListener | runtime/event_stream.py:62-79 | A subscription is appended and nothing else changes. |
| EventStreams.EventStream.RemoveListener | runtime/event_stream.py:81-85 | Unsubscribing removes one occurrence of the subscription, if there is one. |
| EventStreams.EventStream.GetHistory | runtime/event_stream.py:127-135 | The recorded events in order, of one type if asked. |
| EventStreams.ReceivesWhileSubscribed | runtime/event_stream.py:62-125 | Over any run of subscribes, unsubscribes and emits, a listener with one subscription receives exactly the matching events emitted while it is subscribed, in order. |
| EventStreams.DeliveredToOne | runtime/event_stream.py:105-125 | With fixed subscriptions a listener with one subscription receives exactly the matching subsequence. |
| EventStreams.MatchingCounts | runtime/event_stream.py:100-105 | The events a subscription receives are those of the types it named, each as often as emitted; naming none means all. |
| EventStreams.MatchingConcat | runtime/event_stream.py:100-105 | They are received in the order of emission. |
| EventStreams.ReceivesPerSubscription | runtime/event_stream.py:62-125 | Over any run every listener, with any number of subscriptions coming and going, receives each event once for every matching subscription it holds at that emit, in order. |
| EventStreams.RemovalTakesOne | runtime/event_stream.py:81-85 | Unsubscribing takes away one match wherever the entry stands, so removing either of two equal subscriptions leaves the listener one. |
| AgentLoop.AgentExecutionLoop.Run | runtime/agent_loop.py:126-380 | The run terminates; its events, recorded calls, observations, executed tools and final status are those of the reference run. |
| AgentLoop.AgentExecutionLoop.TakeTurn | runtime/agent_loop.py:220-373 | One iteration moves the state, the counters and the event log on by exactly one turn. |
| AgentLoop.AgentExecutionLoop.HandleCall | runtime/agent_loop.py:274-373 | A tool call is denied without execution, or executed and observed; each way is recorded once. |
| AgentLoop.AgentExecutionLoop.StateUpdate | runtime/agent_loop.py:624-649 | The observation is recorded and announced. |
| AgentLoop.AgentExecutionLoop.ContextRebuild | runtime/agent_loop.py:651-686 | A rebuild is announced only when there was one. |
| AgentLoop.RunBounds | runtime/agent_loop.py:214-380 | Over a whole run there are at most `max_iterations` tool calls, each with the observation of its own turn and tool; exactly the permitted calls are executed, and an observation is an error exactly when its call was denied or its output was one. |
| AgentLoop.CompletesIff | runtime/agent_loop.py:214-380 | The run completes exactly when some turn within the limit finishes the task; otherwise it is terminated. |
| AgentLoop.EndsMeans | runtime/agent_loop.py:252-361 | A turn ends the run exactly when the model completes, names no tool, or calls one of the three completing tools and may. |
| AgentLoop.FinalTextMeans | runtime/agent_loop.py:254-363 | The final response is the first non-empty of the answer, the thought and the stock text; of the summary and the evidence for a completing call; and the thought when no tool was named. |
| AgentLoop.StopIsFirstEnd | runtime/agent_loop.py:214-380 | It stops at the first such turn. |
| AgentLoop.ExecutedAreCalls | runtime/agent_loop.py:282-327 | Calls and observations go together one by one, at most one for an iteration and in order; the executed tools are exactly the recorded calls that were permitted. |
| AgentLoop.RunFollowsPhases | runtime/agent_loop.py:214-380 | The event types of every run form a word accepted by the phase machine. |
| AgentLoop.CompletedOnceAndLast | runtime/agent_loop.py:220-380 | A word of the phase language has exactly one completion event, and it is the last. |
| AgentLoop.RunEventsShape | runtime/agent_loop.py:214-380 | Both together for the events a run really emits. |
| AgentLoop.RunLength | runtime/agent_loop.py:214-380 | A run emits at most eight events for each iteration and one more. |
| AgentLoop.ListenerReceivesRun | runtime/agent_loop.py:126-380 | A listener subscribed throughout receives the run's events in order, each once per matching subscription; with a single subscription, exactly the matching ones. |
| Ranking.DotBound | context/ranking.py:138-160 | Twice the product of two vectors is at most the sum of their squares, the step from unit length to scores of at most one. |
| Ranking.NormalizeIsUnit | context/ranking.py:86-89 | A normalised vector has length one or zero, and is positive exactly where the row was. |
| Ranking.IdfAtLeastOne | context/ranking.py:80-82 | Every inverse document frequency is at least one. |
| RankingWeights.RarerWeighsMore | context/ranking.py:80-82 | Of two tokens the one in fewer documents weighs strictly more, and only that one. |
| RankingWeights.EverywhereWeighsOne | context/ranking.py:80-82 | A token weighs exactly one if and only if it is in every document. |
| RankingWeights.WeightsDifferByRatio | context/ranking.py:80-82 | Two weights differ by the logarithm of the ratio of the document counts, each plus one. |
| RankingWeights.DocumentCountIs | context/ranking.py:79-80 | The document count of a column is the number of documents that hold its token. |
| RankingWeights.RarerMatchScoresHigher | context/ranking.py:54-160 | In the score tables: of two documents of one token each, tokens the query has equally often, the one with the rarer token scores strictly higher, and only then. |
| Ranking.TermFrequencies | context/ranking.py:73-77 | A row counts the occurrences of each token of the vocabulary. |
| Ranking.BuildVocabulary | context/ranking.py:61-66 | Every token of the corpus has one column, and every column one token. |
| Ranking.BuildVectors | context/ranking.py:54-93 | The vectors are the weighted and normalised count rows of the query and the documents. |
| Ranking.TermVectorsMean | context/ranking.py:54-93 | Each has length one or zero and is positive exactly at the columns of its own tokens. |
| Ranking.ScoreMeaning | context/ranking.py:138-160 | The score of two texts lies in [0, 1] and is positive exactly when they share a token. |
| Ranking.SelfScore | context/ranking.py:160 | A text scores one against itself, or zero if it has no tokens. |
| Ranking.ScoreBounds | context/ranking.py:174-177 | For a weight in [0, 1] every marginal relevance lies between minus the rest of the weight and the weight. |
| Ranking.ScoreIsMixture | context/ranking.py:174-177 | Marginal relevance is the mixture, in the given weight, of relevance alone and of likeness to the selected items counted against it. |
| Ranking.FresherWins | context/ranking.py:166-181 | Of two equally relevant items, the one less like every selected item than the other is like some has the higher marginal relevance. |
| Ranking.PickBest | context/ranking.py:166-181 | The candidate loop picks the best marginal relevance among all items not selected, the lowest index on ties. |
| Ranking.SelectDiverse | context/ranking.py:140-187 | The selection has exactly min(k, N) items (at least one), each the best choice after the ones before it. |
| Ranking.GreedyIsDistinct | context/ranking.py:151-187 | The selected items are distinct. |
| Ranking.GreedyIsPrefix | context/ranking.py:151-187 | The selection for a smaller k is a prefix of the one for a larger k. |
| Ranking.PureRelevanceIsSorted | context/ranking.py:165-187 | With all weight on relevance the selection is the start of the stable sort by descending relevance. |
| Ranking.PlainSelectsHighest | context/ranking.py:143-156 | Without diversity, the sorted branch selects distinct documents none of which is less relevant than one left out. |
| Ranking.HowManyAreSelected | context/ranking.py:134-187 | The exact number of selected items for every `top_k`: none and zero mean all, a negative one drops items from the end without diversity and gives one with it. |
| Ranking.ScoreTables | context/ranking.py:134-160 | Both score tables come from the term vectors, lie in [0, 1], and relevance is positive exactly for documents sharing a token with the query. |
| Ranking.Rank | context/ranking.py:111-199 | The whole ranking: score tables of the query and the documents, and a selection from them by the branch the flags choose; no number and zero both ask for all. |
| Dedup.SelectionIsUnique | context/dedup.py:39-61 | There is only one set of positions in which a position is kept exactly when its text is not blank and not near an earlier kept one. |
| Dedup.UniqueIsSelection | context/dedup.py:39-61 | The kept texts are those at these positions, in order. |
| Dedup.EveryTextIsCovered | context/dedup.py:46-59 | Every text that is not blank is kept, or near one kept before it. |
| Dedup.DedupIdempotent | context/dedup.py:39-61 | Deduplicating the result changes nothing, for any similarity. |
| Dedup.UniqueIsStable | context/dedup.py:39-61 | Items added later never change what was kept before. |
| Dedup.EqualTextsAreDropped | context/dedup.py:52-59 | When equal texts are near, the kept texts are distinct. |
| Dedup.DedupStrings | context/dedup.py:39-61 | The nested loops keep exactly these texts. |
| Dedup.GroupsPartitionErrors | context/dedup.py:71-86 | The representatives of the error groups are the texts kept at the same threshold, and the counts add up to the number of errors that are not blank. |
| Dedup.GroupCountIsExact | context/dedup.py:77-86 | When equal texts are near, a group's count is the number of errors whose first near representative it is. |
| Dedup.DedupErrors | context/dedup.py:63-93 | The result is one label per group, with its count when it is above one. |
| Dedup.DedupCandidates | context/dedup.py:95-122 | The candidates themselves are kept, at exactly the selected positions of their stripped contents. |
| LogCompression.CompressedIsUnique | context/pack.py:308-340 | The compressed entries are determined by the lines: reading them back fixes every line and every gap. |
| LogCompression.KeptIffImportant | context/pack.py:317-329 | A line is kept, under its own recoverable number, exactly when it is among the first 3 or the last 5, or within two before to four after an error line. |
| LogCompression.KeptMeans | context/pack.py:317-327 | The same in plain numbers: the first three, the last five, and from two before to four after each line with an error marker. |
| LogCompression.IsErrorMeans | context/pack.py:322-324 | An error line is one in which some marker occurs, in any case. |
| LogCompression.KeptInOrder | context/pack.py:329-338 | Kept lines keep their order and text. |
| LogCompression.EveryLineIsCounted | context/pack.py:333-338 | Kept lines plus gap counts equal the number of lines, and the result never has more lines than the log. |
| LogCompression.CompressedLength | context/pack.py:329-340 | The exact length of the result: one entry for each important line and one for each run of others. |
| LogCompression.ErrorsAreAllKept | context/pack.py:308-340 | `max_lines` is no bound on the result: a log of error lines of any length is kept whole. |
| LogCompression.MarkImportant | context/pack.py:317-327 | The loops mark exactly the important lines. |
| LogCompression.WriteEntries | context/pack.py:329-338 | The output loop writes entries that read back over the whole log. |
| LogCompression.Compress | context/pack.py:308-340 | A log within the limit is returned unchanged, any other as its compressed entries. |
| Lines.SplitJoin | context/pack.py:266-278 | Splitting undoes joining, for lines without breaks of which the last is not empty. |
| Whitespace.StripWhitespace | context/pack.py:266-278 | The loop trims, collapses, joins and strips as specified. |
| Whitespace.ResultIsNormal | context/pack.py:266-278 | The result is the join of lines in normal form, computed from the input's lines alone. |
| Whitespace.ResultLines | context/pack.py:266-278 | Read back, no line has trailing white space, no two blank lines are together, and the first and last lines have text. |
| Whitespace.StripWhitespaceIdempotent | context/pack.py:266-278 | Normalising twice is normalising once, for every text and every kind of line break. |
| Whitespace.TextIsPreserved | context/pack.py:266-278 | The lines with text are the same, in order, but for trailing white space and the first one's indent. |
| Utf8.DecodeEncode | context/budget.py:37-48 | Decoding the bytes of a text gives the text back. |
| Utf8.DecodeCut | context/budget.py:47-48 | Decoding the first bytes of a text gives its complete characters, and one replacement character exactly when the cut falls inside a character. |
| ByteTokens.TruncateIsPrefix | context/budget.py:37-48 | For any vocabulary of byte strings, a cut text is the complete characters before the cut, in order, and at most one replacement character. |
| ByteTokens.TruncateFitsIff | context/budget.py:37-48 | For any vocabulary of byte strings, where the complete characters keep their tokens and a replacement character adds its own: the cut text has at most the given tokens exactly when no character was cut, or the replacement takes no more tokens than the part of the character did; and how many it has. |
| ByteTokens.NarrowTextsFit | context/budget.py:37-48 | There texts of one-byte characters always fit. |
| ByteTokens.TornHoldRest | context/budget.py:37-48 | The tokens after those of the complete characters stand for exactly the bytes that are left of a cut character, so there are some if and only if a character was cut. |
| ByteTokens.AdditiveCutsWithin | context/budget.py:37-48 | If that holds at every cut, a cut text has at most one token less than the replacement character too many. |
| ByteTokens.OneTokenReplacementFits | context/budget.py:37-48 | So the promise is always kept where the replacement character is a single token. |
| ByteTokens.ConcatenativeIsAdditive | context/budget.py:37-48 | It does hold at every cut for every encoder that takes a text character by character. |
| ByteTokens.BytesFitIff | context/budget.py:37-48 | For one token per byte, a vocabulary the program does not load, this means: exactly when the cut leaves no byte of a character, or three. |
| ByteTokens.BytesCanGrow | context/budget.py:37-48 | For one token per byte, a two-byte letter cut to one token has three. |
| Budget.ContextBudgetManager.constructor | context/budget.py:95-112 | A new manager has its allocations and no consumption. |
| Budget.ContextBudgetManager.AllocateAndTruncate | context/budget.py:135-147 | The text is cut to the stream's allocation or the given budget and its consumption recorded; an empty text changes nothing. |
| Budget.ContextBudgetManager.Compile | context/compiler.py:119-297 | A compile fills seven streams, and reports the consumption the manager then holds. |
| Budget.ContextBudgetManager.GetSurplus | context/budget.py:149-152 | What the manager's own account leaves of the budget, never negative. |
| Budget.RunStaysWithin | context/budget.py:135-147 | After any sequence of compiles on one manager each stream's consumption is within its allocation, up to what the encoder lets a cut text overrun, and the conversation stream's is zero. |
| Budget.AllocationsFitIff | context/budget.py:107-112 | The default allocations of the filled streams fit the budget exactly from 497 tokens on. |
| Budget.DefaultAllocations | context/budget.py:107-112 | The default allocation of each stream in whole numbers: a tenth, three twentieths, a quarter, a fifth or a twentieth of the budget, rounded down, and at least 50. |
| Budget.ReportStaysWithinBudget | context/compiler.py:278-295 | From 497 tokens on, no sequence of compiles ever reports more than the budget, up to that overrun in each of seven streams. |
| Budget.ByteReportStaysWithin | context/compiler.py:278-295 | With one token per byte, no more than fourteen tokens over the budget. |
| Budget.SmallBudgetsAreExceeded | context/compiler.py:278-295 | For every smaller budget and every encoder, a single compile whose texts fill the streams reports more. |
| Budget.LongTextsFill | context/compiler.py:278-295 | There are such texts, shown with one token per character. |
| Budget.ReportIsExactIff | context/compiler.py:278-295 | The reported total is that of the package exactly when no stream without text has consumption left over from an earlier compile; otherwise it is larger. |
| Budget.OldDiffIsReported | context/compiler.py:278-295 | It happens for every encoder and all allocations: a compile whose diff has tokens and then one without a diff, which reports more than its package holds. |
| Assembler.SortOrders | context/budget.py:220 | Priorities ascend, and within one priority essential sections come first. |
| Assembler.SortKeepsAll | context/budget.py:220 | No section is lost or repeated by the sort. |
| Assembler.SortIsStable | context/budget.py:220 | Sections of one rank keep their order. |
| Assembler.Assemble | context/budget.py:219-236 | The loop's text and token count are those of the specification. |
| Assembler.CostWithinOwnLimit | context/budget.py:228-229 | A section counts no more tokens than its own limit, up to the slack of the encoder's cuts, and is whole when it fits. |
| Assembler.EssentialIsTaken | context/budget.py:225-234 | Every essential section that is not empty is in the result. |
| Assembler.UsedIsBounded | context/budget.py:225-234 | The counted total is at most the limit plus the tokens of the essential sections. |
| Assembler.OverLimitIff | context/budget.py:225-234 | The limit is exceeded exactly when some essential section no longer fits at its turn. |
| Assembler.OverLimitIffCrowded | context/budget.py:225-234 | Equally: exactly when the essential sections do not fit beside the others that were taken before the last of them. |
| Assembler.LimitIsKept | context/budget.py:225-234 | Told from the sections alone: the limit is kept when the essential sections fit beside all others sorted before the last of them, and exactly when they fit if there are none of those. |
| Assembler.AllFit | context/budget.py:225-234 | When everything fits, every section that is not empty is taken, in order. |
| Assembler.EssentialCanComeTooLate | context/budget.py:225-234 | For every encoder and any text with tokens: two sections with that text, the first of higher priority, of which the essential one fits and the limit is still exceeded. |
| GroundTruth.Evaluate | agent_orchestrator/runtime/verification_matrix.py:86-144 | The report holds all six gates, lists exactly the failing blocking ones, and passes exactly when there are none. |
| GroundTruth.PassedIffNoneBlocks | agent_orchestrator/runtime/verification_matrix.py:98-137 | The matrix passes exactly when no gate fails and blocks. |
| GroundTruth.PassedMeans | agent_orchestrator/runtime/verification_matrix.py:146-327 | The matrix passes exactly when the static report, the build report or test run, the regressions, the coverage of changed lines, the traceability and the tautologies are each in order, told from the facts themselves. |
| Reviewer.ScoreObjectively | agent_orchestrator/agents/reviewer.py:306-382 | Without a verdict from the model, the score is 100 less the deductions and never negative; it reaches 80 exactly when nothing was deducted, exactly then the verdict is PASS, and the issues are one for each failure. |
| Reviewer.OneFailureDeducts | agent_orchestrator/agents/reviewer.py:320-362 | Each kind of failure on its own costs 50, 40, 40 or 35, and the score only reaches zero with a failed build or all three others. |
| Reviewer.Judge | agent_orchestrator/agents/reviewer.py:303-437 | The final verdict is PASS exactly when the claimed one says so, the matrix passed and no test failed; a vetoed claim gets the smaller of its score and 45, one issue for each blocking gate and one for the reason, and the agent to fix them; any other claim is kept but for the verdict. |
| Reviewer.VetoLowersScore | agent_orchestrator/agents/reviewer.py:389-401 | A veto leaves the smaller of the claimed score and 45, keeps the claimed issues and adds one for each blocking gate. |
| Reviewer.VetoAsksTester | agent_orchestrator/agents/reviewer.py:404-427 | A veto asks the tester for the fix exactly when no test failed and there are tautologies, or static analysis did not fail and traceability did; otherwise the coder. |
| Reviewer.SaysPassMeans | agent_orchestrator/agents/reviewer.py:385-386 | A verdict text says PASS exactly when those letters occur in it, in any case. |
| Reviewer.VetoCovers | agent_orchestrator/agents/reviewer.py:385-390 | Static failures, tautologies and a failed build pipeline already fail the matrix, so the separate tests for the first two add nothing. |
| Reviewer.PassMeansChecked | agent_orchestrator/agents/reviewer.py:385-431 | A passing verdict means that no deterministic check has failed. |
| Reviewer.MissedFailureIff | agent_orchestrator/agents/reviewer.py:306-310 | Which test failures a passed matrix has missed: counted failures always, and a failed run exactly when a passing pipeline report spoke for it and no clean baseline did. |
| Reviewer.MatrixCanPassIff | agent_orchestrator/runtime/verification_matrix.py:98-137 | Whatever the tests say, some analysis lets the matrix pass exactly when the pipeline report, or without one a clean run, lets it and there are no tautologies. |
| Reviewer.MatrixCanMissFailedTests | agent_orchestrator/agents/reviewer.py:306-310 | Three failed tests in a failed run, hidden from the matrix by a passing pipeline report. |
| Workflow.ReplansAreBounded | agent_orchestrator/orchestrator.py:1383-1394 | No run replans more often than the limit, or reviews more than once more. |
| Workflow.RunKeepsInv | agent_orchestrator/orchestrator.py:468-509 | Iteration, replans, reviews, verdict and route stay tied together over every run of the graph. |
| Workflow.RunsEnd | agent_orchestrator/orchestrator.py:468-509 | Apart from steps that continue with further subtasks, a run is over after three steps per replan and five more. |
| Workflow.CheckedPlanContinues | agent_orchestrator/orchestrator.py:1369-1381 | In a plan that passed the cycle check the graph goes on executing exactly until every task is completed, as long as none fails. |
| Workflow.ContinuesIff | agent_orchestrator/orchestrator.py:1369-1381 | In every plan that passed the cycle check the graph goes on executing exactly while some waiting task is not held up by a missing, failed or otherwise stuck one; else it goes to review. |
| Workflow.CompletedIffPassed | agent_orchestrator/orchestrator.py:1444-1461 | A finished run is COMPLETED exactly when its last route was to pass. |
| Workflow.StatusFollowsLimitIff | agent_orchestrator/orchestrator.py:1414-1461 | The documented status rule is kept exactly when the run passed or the limit is at least three, because the converted state keeps the default limit. |
| Workflow.LowLimitIsMisreported | agent_orchestrator/orchestrator.py:1414-1461 | For every limit below three there is a run that halts at it and ends FAILED where the rule gives STOPPED. |
| Workflow.HaltedRunStatus | agent_orchestrator/orchestrator.py:1444-1461 | A run halted at its limit after the review agent's review is STOPPED from a limit of three on, and FAILED below. |
| Workflow.FinalStatusIs | agent_orchestrator/orchestrator.py:1444-1461 | The status of every finished run, for each of the five: passed, stopped at a limit of three or more, and below that failed, incomplete or needing verification by the verdict and the task graph. |
| Workflow.CompletedMeansChecked | agent_orchestrator/orchestrator.py:1383-1461 | A run whose last review was the review agent's is COMPLETED exactly when the claim, the matrix and the tests passed, and then no deterministic check has failed. |
| Workflow.Reconcile | agent_orchestrator/orchestrator.py:1257-1264 | Of the failed tasks exactly those with a retry left use one and become ready; the result says whether there was one. |

## Left out

- HTTP and WebSocket endpoints, databases, git, subprocesses, MCP transports and model calls: their answers are parameters.
- Throttler: a release without a matching entry, and `get_backoff_delay`, are not modelled. Starvation of a single thread is not excluded.
- Waves: the alternative path that asks a live scheduler for its waves, and the choice of the active wave.
- TaskDag: error messages, timestamps, artifacts, retries by the scheduler, pruning of several tasks and the injection of remediation tasks; each task's state is an entry of one map, so two task objects under one id are not distinguished.
- TaskOrphans: a run of the scheduler does not retry failed tasks; readying one again starts a new run.
- TaskTree: fields of the nodes other than the id and the children.
- ToolMachine: error texts, and calls of the unguarded `transition` by code outside the router within a run; `TransitionKeepsIff` says when one such call is harmless.
- SkillEnforcer: how the required tools are collected from manifest and matrix, and their sorting; the method takes them as a list without repeats.
- SchemaRouter: the words that route a task to capabilities, and the shape and order of the schemas; the result is the set of exposed names.
- ToolPolicies: parameter constraints, rate limits and approval flags.
- EventStreams: an external event bus, errors raised by listeners, and listeners that subscribe or emit while an event is delivered.
- AgentLoop: prompts, parsing of model answers, memory and diff updates, the token budget of rebuilt contexts.
- Ranking: floating-point rounding; the logarithm and the square root are functions with the laws of `Ranking.Lawful`, and the tokenizer of the texts is not modelled.
- Dedup: the ratio itself, and `is_near_duplicate`, which none of the modelled methods calls.
- LogCompression: case mapping outside ASCII; a log line that looks like a gap marker cannot be told from one in the joined text, so line numbers are recovered from the entries.
- Text: upper and lower case map the ASCII letters only.
- ByteTokens: how the encodings the program loads merge bytes; that the law of `ByteTokens.SplitsAt` holds at a cut, and how many tokens their replacement character has, are hypotheses. How a decoder treats malformed bytes other than cut ones, which an encoded text never has.
- Budget: floating-point rounding of the shares, stream names outside the eight known ones, and the slicing that prepares each stream's text.
- Assembler: headers and separators are not counted by the program, so the token total is that of the trimmed contents.
- GroundTruth: the analysers behind the gates, scores and texts of the report.
- Reviewer: strengths, summary and remediation texts; model scores that are not whole numbers.
- Workflow: the nodes before execution beyond their order, cancellation, the recursion limit of the graph library, the diagnosis and rollback inside replanning, and resuming a stored session, which has no iteration check.
- Path containment and dangerous-command checks, call and import graphs, the frontend and the gateway package.

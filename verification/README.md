# Verified models of the workflow engine and its neighbours

This project models six parts of the agent runtime and proves what they are for.

1. **Workflow scheduler** (`WorkflowNode`, `GreedyOrder`, `TopologicalSort`, `PhaseLoop*`, `Workflow`). A definition's
   nodes are sorted with a stable form of Kahn's algorithm and then walked by the phase loop: dependency checks, branch
   skips, critic gates, bounded retries, jumps back, resume, nodes that run other nodes. The loop is modelled twice.
   `PhaseLoop` is a transition system over plain values; `PhaseLoopRunner` is the imperative loop, with its nested loops
   and mutable fields, proved to end in exactly the state the transition system ends in. What agents, critics, node
   handlers and the abort signal do is an arbitrary tape of answers, so every theorem about `Run` holds against an
   adversary.
2. **Tool-call extraction** (`BalancedJson`, `JsonText`, `ToolCallCandidates`). The character scanner is specified by
   reference definitions of quotes, escapes and depth that read the text and not the scanner's flags, and it is shown
   to undo a printer for JSON (RFC 8259, sections 4, 5 and 7) inside any surrounding text.
3. **Message bus** (`BoundedQueue`, `MessageBus`, `MessageBusLaws`). The head-indexed queue refines a bounded FIFO; one bus
   channel is a state machine whose atomic events may come in any interleaving.
4. **Memory chunk index** (`PlainText`, `MemoryChunker`, `ChunkConservation`, `ChunkLaws`, `ChunkId`, `ChunkIndex`). The
   chunker, its conservation of text, and the re-chunk job that keeps a chunk table, a full-text index and a vector table
   in agreement with the document.
5. **Agent and task lifecycles** (`Subagents`, `ToolCallGuard`, `AgentLoop`, `TaskLife`). Spawn cap and cascade
   cancel, the guard against repeated tool batches inside the agent loop, and the turn and resume budget over a task's
   whole life.
6. **Field mappings and ranking** (`FieldPaths`, `ObjectHeap`, `FieldMappings`, `RankFusion`, `MmrRerank`). Nested writes
   to objects that may be held in many places, what sharing breaks and what it leaves intact, reciprocal rank fusion, and
   re-ranking for variety, over real numbers.

## Reading guide

*Orders.* `SortSpec` is the greedy order: always take the first node, by original position, whose known dependencies
are all placed. `Sort` is Kahn's algorithm with its maps and queue. The theorems say that they agree for unique ids,
that the fallback to the input is taken exactly when the dependency graph has a cycle, and that the result is the
lexicographically least order.

*Runs.* `Step` is one round of the main loop or of the critic loop. `Run` is defined only because the measure
(jumps left, nodes left, critic rounds left) descends at each step. `log` records what happened. The main results:

- `EachNodeEnteredAtMost`, `CallsBounded`: with G the sum of `max_retries` over jumping critics, no node is entered more
  than 1 + G times and no entry calls its critic more than `max_retries` + 1 times.
- `WorkflowTotalIff` (from `PhaseLoopTotal.AlwaysTotalIff`): no run of a definition that ends completed leaves a node
  behind, whatever is answered, exactly when the definition is acyclic, its dependencies are all named, its gates jump back
  only, and no retry can leave an earlier record open. The loop passes a node with an unmet dependency over in silence, so
  each definition that fails this and is `Runnable` has a run that ends completed with nodes left out.
  `PhaseLoopWitnesses` shows small ones.
- `FreshCompletionAccounts`, `ResumedCompletionAccounts`: without any condition on retries, a node that is not settled at a
  completed end was left open by a handler (`LeftOpen`), or is a recorded phase that a jump went back over (`Lost`), or
  depends on such a node. A retry that uses up its attempts leaves its target "running" and completes
  (src/agent/nodes/retry.ts:56-97).
- `RecordedSettledIff`, `ResumedTotalIff`: a phase that a resumed run found completed stays so exactly when no jump goes
  back over it: recorded ids are skipped before their status is looked at (src/agent/phase-loop-runner.ts:156-161).
- `StartsInOrder`, `GatesHold`: in fresh and resumed runs, at the point of the log where a node starts each dependency is
  done; and a gated phase is completed only on its critic's approval, on a waiver (a jump without a target, or a targeted
  retry that finds none of the recorded agents to rerun), or by a resumed run that finds all its agents completed.
- `PhaseLoopBranches`, `PhaseLoopAnswers`: what each answer leads to, told from the answer and the node's own fields: which
  branches it switches off, how agents' outcomes decide by the policy, what a critic's verdict makes of a phase, and that a
  decision stands for the rest of the run. Jumps are counted under a key made of two ids, so critics may share a count when
  phase ids hold `>` (`KeysMayCollide`).
- `OrcheEnteredOnce`, `NoNodeTwice`: an orchestration node is entered at most once more than handlers of other nodes left
  its record open; not twice at all in a well planned definition whose retries cannot reopen.

`WellPlanned` is dependency order with gates that jump back only. `Reopens(nodes, i)` are the ids whose records a run of
node `i` may leave open, found through the nodes it may run, directly or through others; `NeverReopens` says that no node
can do that to an earlier one. `Runnable` says that no phase fails by itself, for lack of an agent or of its quorum.

*Courses.* A run of a task and an agent loop are also told without their step functions: `IndexAt` and `EndsAfter`,
`Taken` and `WhyNoMore` read the tape of answers only. In the same way `MessageBusLaws` reads the events of a channel, and
`ChunkLaws` the fields of the chunks.

*Sharing.* A mapped object stays shared with the output it came from. `ObjectHeap` says what a nested write does on any
heap. A write leaves all paths apart from it alone exactly when no other path leads to the object it changes
(`LocalIffAlone`); then it does what `Put` does on trees (`WriteIsPut`). `OtherPathsKept` and `LastWriterWins` hold under
`NoWriteThrough`: no target that is written passes strictly through an object that was shared before, that an earlier
mapping carried (at its target or its source), or that the mapping itself carries. Three lemmas show inputs on which they
fail without it.

*Assumptions.* Ids are unique where a theorem says so, `max_retries` and turn limits are natural numbers, the content
hash has no collisions and prints no colon, and a fresh subagent id names no running agent. `Spawn`'s precondition is
that last assumption: the source draws a random id and checks nothing.

## Model

| member | source | states |
|---|---|---|
| TopologicalSort.Sort | src/agent/workflow-node.types.ts:2227-2268 | for unique ids Kahn's algorithm with its maps, queue and re-sorting returns the greedy order, or the input when it gets stuck |
| TopologicalSort.CountDependencies | src/agent/workflow-node.types.ts:2231-2244 | every count is the number of known dependencies with repetition, every dependent list mirrors it |
| TopologicalSort.Release | src/agent/workflow-node.types.ts:2258-2262 | the nodes pushed are exactly those whose count fell to zero, each once, and queue plus pending is conserved |
| TopologicalSort.OneRound | src/agent/workflow-node.types.ts:2253-2263 | a round places the greedy choice, and the queue again holds exactly the ready nodes |
| GreedyOrder.CompleteIffAcyclic | src/agent/workflow-node.types.ts:2265-2267 | the order covers all nodes exactly when the dependency graph over known ids has no cycle |
| GreedyOrder.SortOrders | src/agent/workflow-node.types.ts:2226-2268 | the result rearranges the input; dependencies come first exactly when there is no cycle, else the input comes back |
| GreedyOrder.SortIsLeast | src/agent/workflow-node.types.ts:2246-2263 | no dependency-respecting order is lexicographically smaller by original position |
| GreedyOrder.SortIsStable | src/agent/workflow-node.types.ts:2246-2267 | an ordered input is unchanged, and sorting twice is sorting once |
| PhaseLoop.StepDescends | src/agent/phase-loop-runner.ts:126-158 | every step keeps the state well formed and lowers (jumps left, nodes left, critic rounds left) |
| PhaseLoop.BudgetDrops | src/agent/phase-loop-runner.ts:438-450 | a counted jump within its limit uses up one of the jumps left |
| PhaseLoop.Run | src/agent/phase-loop-runner.ts:147-558 | every run ends, whatever the answers |
| PhaseLoop.RunKeeps | src/agent/phase-loop-runner.ts:147-558 | what every step keeps, every run keeps |
| PhaseLoopRunner.PhaseLoopRun.Fresh | src/agent/phase-loop-runner.ts:98-118 | a new run starts with one pending record per phase and orchestration node |
| PhaseLoopRunner.PhaseLoopRun.Resume | src/agent/phase-loop-runner.ts:126-144 | a resumed run keeps its records and remembers those completed or skipped |
| PhaseLoopRunner.PhaseLoopRun.RunPhaseAgents | src/agent/phase-loop-runner.ts:572-720 | running a list of agents writes each outcome to its slot and leaves completed agents alone |
| PhaseLoopRunner.PhaseLoopRun.RunLoopingPhase | src/agent/phase-loop-runner.ts:839-930 | the turn loop ends with the first agent completed, unless it crashes or is aborted before the first turn |
| PhaseLoopRunner.PhaseLoopRun.ResetPhases | src/agent/phase-loop-runner.ts:462-465 | exactly the phases from the target to the one at hand are reset |
| PhaseLoopRunner.PhaseLoopRun.SkipInactive | src/agent/phase-loop-runner.ts:253-271 | the ids added to the skipped ones are those of `Inactive`, which `PhaseLoopBranches` ties to the branches not taken |
| PhaseLoopRunner.PhaseLoopRun.RunOrche | src/agent/phase-loop-runner.ts:190-324 | running an orchestration node takes the step of the transition system, ending the run on failure and on waiting |
| PhaseLoopRunner.PhaseLoopRun.RunPhase | src/agent/phase-loop-runner.ts:326-410 | running a phase takes the step of the transition system: mode, failure policy, then finish or critic |
| PhaseLoopRunner.PhaseLoopRun.JumpBack | src/agent/phase-loop-runner.ts:437-478 | a rejected jumping gate counts, escalates, waives or resets and jumps, as specified |
| PhaseLoopRunner.PhaseLoopRun.Review | src/agent/phase-loop-runner.ts:412-536 | the critic loop takes the steps of the transition system until the phase is finished, left or ended |
| PhaseLoopRunner.PhaseLoopRun.Execute | src/agent/phase-loop-runner.ts:146-558 | the imperative loop ends in exactly the state of `Run`, for every tape of answers |
| PhaseLoopLog.StepGrows | src/agent/phase-loop-runner.ts:147-537 | each step only appends to the log, and only one of the listed event patterns with the place that goes with it |
| PhaseLoopLog.EachNodeEnteredAtMost | src/agent/phase-loop-runner.ts:126-148 | no node is started more than 1 + G times, G the sum of `max_retries` over jumping critics |
| PhaseLoopLog.CallsMatchAttempts | src/agent/phase-loop-runner.ts:413-436 | the attempt number in the log counts the critic calls of this entry |
| PhaseLoopLog.CallsBounded | src/agent/phase-loop-runner.ts:413-487 | one entry calls its critic at most `max_retries` + 1 times |
| PhaseLoopOrder.StepProgress | src/agent/phase-loop-runner.ts:163-188 | in a well planned definition every node behind the run stays settled, but for those left open by handlers or lost to a jump, and their dependents |
| PhaseLoopRuns.RunLawful | src/agent/nodes/retry.ts:41-98 | in every run the records that handlers leave open are targets of retries that the node may run, and the jumps are those of gates |
| PhaseLoopRuns.FreshCompletionAccounts | src/agent/phase-loop-runner.ts:146-545 | nodes in dependency order, gates jumping back: at a completed end every node is settled, or was left open by a handler, or depends on one that was |
| PhaseLoopRuns.FreshCompletionIsTotal | src/agent/phase-loop-runner.ts:146-545 | and if no retry can reopen an earlier record: ending completed means every node is completed or branch-skipped |
| PhaseLoopRuns.ResumedCompletionAccounts | src/agent/phase-loop-runner.ts:131-161 | the same for a resumed run, where a recorded phase is also lost when a jump goes back over it |
| PhaseLoopRuns.ResumedCompletionIsTotal | src/agent/phase-loop-runner.ts:131-161 | if jumps and retries cannot touch what is recorded done, a resumed run that ends completed is total; without branches every record ends completed |
| PhaseLoopResume.RecordedSettledIff | src/agent/phase-loop-runner.ts:156-161 | a phase found completed is settled in the end exactly when no jump went back over it or a branch switched it off |
| PhaseLoopResume.ResumedTotalIff | src/agent/phase-loop-runner.ts:131-161 | without branches and reopenings, a resumed run that ends completed is total exactly when no jump went back over a recorded phase |
| PhaseLoopWitnesses.CycleCompletesNothing | src/agent/phase-loop-runner.ts:174-188 | two nodes that wait for each other: the run does nothing and ends completed |
| PhaseLoopWitnesses.GivenUpIsLeftOpen | src/agent/nodes/retry.ts:56-97 | a node and its retry: when the retry gives up, the run ends completed and the node is not settled |
| PhaseLoopWitnesses.ResumedRunLosesPhases | src/agent/phase-loop-runner.ts:156-161 | a resumed run whose gate jumps back over a recorded phase ends completed with neither phase completed |
| PhaseLoopEntries.OrcheEnteredOnce | src/agent/phase-loop-runner.ts:190-196 | an orchestration node is entered at most once more than its record was left open by others, and a resumed run enters nothing recorded done |
| PhaseLoopOnce.NoNodeTwice | src/agent/phase-loop-runner.ts:190-196 | in a well planned definition whose retries cannot reopen, no orchestration node is entered twice |
| PhaseLoopEvidence.StartsInOrder | src/agent/phase-loop-runner.ts:174-188 | at the log position of every start each dependency is skipped, completed or recorded done, in fresh and resumed runs (`FreshStarts`, `ResumeStarts`) |
| PhaseLoopGates.GatesHold | src/agent/phase-loop-runner.ts:428-535 | a gated phase that ends completed was last touched by its finish after an approval, or after a waiver whose rejection would rerun none of its agents, or by its recovery, or not at all in a run that found it completed |
| PhaseLoopSmooth.SmoothRun | src/agent/phase-loop-runner.ts:146-545 | when every agent succeeds and every critic approves, a run over phases that do not fail by themselves ends completed |
| PhaseLoopBranches.IfSkipsTheOther | src/agent/phase-loop-runner.ts:253-258 | an answered `if` newly skips exactly the ids that the branch not taken lists |
| PhaseLoopBranches.SwitchSkipsTheOthers | src/agent/phase-loop-runner.ts:260-271 | an answered `switch` newly skips exactly the ids that some case or the default lists and the first matching case, or the default if none matches, does not |
| PhaseLoopBranches.DecisionsStand | src/agent/phase-loop-runner.ts:163-271 | in every run: each decision switches off exactly what it is against, and nothing it is against is started later, not even after a jump back |
| PhaseLoopAnswers.AgentsTakeOutcomes | src/agent/phase-loop-runner.ts:612-698 | of the agents run side by side, each that was not completed takes its own outcome, and nobody else changes |
| PhaseLoopAnswers.SlotIs | src/agent/phase-loop-runner.ts:612-613 | a definition writes to the first record of its id, or to the one at its own place if none has it |
| PhaseLoopAnswers.LastOutcomeStays | src/agent/phase-loop-runner.ts:612-698 | whatever the ids, a record has the outcome of the last definition that writes to it, unless it was completed |
| PhaseLoopAnswers.ParallelPhaseGoesOn | src/agent/phase-loop-runner.ts:370-410 | the number of definitions that were to run and failed decides by the policy whether the phase fails, is completed or goes to its critic |
| PhaseLoopAnswers.TurnsEndIff | src/agent/phase-loop-runner.ts:853-923 | the turns end without an exception exactly when every turn that breaks comes after one that stopped the loop |
| PhaseLoopAnswers.LoopingPhaseGoesOn | src/agent/phase-loop-runner.ts:376-408 | a phase in turns fails if a turn breaks before one stops the loop, else its first agent is completed; with a user the phase is then completed, otherwise its policy decides |
| PhaseLoopAnswers.PassedReviewCompletes | src/agent/phase-loop-runner.ts:428-431 | an approval, a crashed critic or a critic without a gate completes the phase and nothing else |
| PhaseLoopAnswers.RejectionWaits | src/agent/phase-loop-runner.ts:433-488 | a rejection stops the run for the user exactly when the jumps or rounds are used up or the critic escalates |
| PhaseLoopAnswers.RejectionJumps | src/agent/phase-loop-runner.ts:437-478 | a jump is counted under its own key only, resets exactly the phases it goes back over, and goes on at its target |
| PhaseLoopAnswers.RejectionRetriesAll | src/agent/phase-loop-runner.ts:489-502 | retrying all runs every agent afresh, whatever it had done |
| PhaseLoopAnswers.RejectionRetriesTargets | src/agent/phase-loop-runner.ts:504-534 | a targeted retry reruns exactly the agents that the rejection is about and leaves the others as they are |
| PhaseLoopAnswers.RejectionWithoutTargets | src/agent/phase-loop-runner.ts:504-518 | a targeted rejection that is about no defined agent is waived |
| PhaseLoopAnswers.KeysDiffer | src/agent/phase-loop-runner.ts:438-440 | critics of phases whose ids hold no `>` count their jumps apart |
| PhaseLoopAnswers.KeysMayCollide | src/agent/phase-loop-runner.ts:438-440 | two critics whose jumps are counted as one |
| PhaseLoopAnswers.HandlersDecide | src/agent/phase-loop-runner.ts:273-324 | a handler that throws fails the run, one that waits stops it with a pending record that a resume takes up again, any other completes its node |
| PhaseLoopAnswers.HandlersMark | src/agent/nodes/retry.ts:41-98 | what a handler of its own kind may make of other records: a retry of its target, an error handler of what it tries, others of none |
| PhaseLoopAnswers.LoopEnds | src/agent/phase-loop-runner.ts:147-155 | the main loop completes at the end of the list, is cancelled where it sees an abort, and ends otherwise only by an error or to wait, at a node it started |
| PhaseLoopAnswers.NodesArePassedOver | src/agent/phase-loop-runner.ts:156-188 | recorded, switched-off and waiting nodes are passed over without a change but the record of a switched-off one |
| PhaseLoopAnswers.PhaseIsRecoveredIff | src/agent/phase-loop-runner.ts:336-349 | a phase that may run is passed over, recovered or started, by its status and its agents |
| PhaseLoopAnswers.MetIff | src/agent/phase-loop-runner.ts:174-187 | a dependency is met exactly if it was switched off, or its phase is completed, or its record closed |
| PhaseLoopAnswers.FreshPhaseIsPending | src/agent/phase-loop-runner.ts:98-118 | a fresh run has a pending record for every phase, with a pending agent for each definition |
| PhaseLoopAnswers.ResumeRemembers | src/agent/phase-loop-runner.ts:126-144 | a resumed run remembers the phases that are completed and the records that are closed, a fresh one nothing |
| PhaseLoopExact.MetIsEarlier | src/agent/phase-loop-runner.ts:174-188 | what a node that may start depends on stands earlier in the list |
| PhaseLoopExact.CompletionIsTotalIffOrderly | src/agent/phase-loop-runner.ts:174-188 | without branches, jumps and handlers that rewrite records, each run that ends completed is total exactly when the nodes stand in dependency order |
| PhaseLoopTotal.AlwaysTotalIff | src/agent/phase-loop-runner.ts:146-545 | all completed runs are total exactly when the nodes stand in dependency order, gates jump back only and no retry can reopen an earlier record; branches, jumps and retries included |
| PhaseLoopTotal.Ambush | src/agent/phase-loop-runner.ts:437-470 | from any point of a smooth run before a gate that can jump forward there are answers on which the run ends completed with the gate's phase left out |
| Workflow.NormalizeWorkflow | src/agent/workflow-node.types.ts:2208-2224 | nodes are sorted when there are any; legacy phases are taken as they come |
| Workflow.RunWorkflow | src/agent/phase-loop-runner.ts:82-558 | a definition is normalized and run to the end state of `Run` on the normalized nodes |
| Workflow.SortedIsOrderlyIff | src/agent/workflow-node.types.ts:2208-2268 | the sorted nodes stand in dependency order exactly when the definition is acyclic and all dependencies are named |
| Workflow.WorkflowTotalIff | src/agent/phase-loop-runner.ts:146-545 | the exact condition for a whole definition: acyclic, dependencies named, gates jumping back, no retry that reopens |
| Workflow.WorkflowCompletionIsTotal | src/agent/phase-loop-runner.ts:146-545 | its sufficient half, with no condition on phases and triggers |
| Workflow.WorkflowCompletesIff | src/agent/phase-loop-runner.ts:174-188 | without branches, jumps and handlers that rewrite records, acyclic with all dependencies named is what totality of each single run takes |
| BalancedJson.ExtractBalanced | src/agent/tool-call-parser.ts:117-153 | the result is the shortest prefix from an opener whose depth outside literals returns to zero; none means there is none |
| JsonText.PrintedIsExtracted | src/agent/tool-call-parser.ts:117-153 | whatever way an object or array is printed and whatever surrounds it, extraction at its start gives back the printed text |
| JsonText.ExtractPrinted | src/agent/tool-call-parser.ts:117-153 | running the scanner on printed text within any prefix and suffix returns the printed text |
| JsonText.ScanIsDepth | src/agent/tool-call-parser.ts:122-151 | the scanner's flags and counter say what the reference definitions of literal, escape and depth say |
| ToolCallCandidates.LastOpener | src/agent/tool-call-parser.ts:166-168 | the nearest opener at or before a position |
| ToolCallCandidates.CandidateAt | src/agent/tool-call-parser.ts:163-177 | the innermost balanced text before a keyword that contains it, among the nearest openers scanned; none means none fits |
| ToolCallCandidates.Candidates | src/agent/tool-call-parser.ts:155-180 | one search per occurrence, left to right without overlap, none missed; the output lists the candidates found in order |
| ToolCallCandidates.SearchIsUnique | src/agent/tool-call-parser.ts:155-180 | the specification admits one list of hits only |
| ToolCallCandidates.HitsDoNotOverlap | src/agent/tool-call-parser.ts:158-178 | the occurrences visited come from left to right and do not overlap |
| ToolCallCandidates.FirstKeyFindsObject | src/agent/tool-call-parser.ts:155-180 | a printed object or array whose first key or text, after any white space, is the keyword is among the candidates, in any surroundings, unless an earlier occurrence overlaps the key |
| ToolCallCandidates.FirstKeyLeads | src/agent/tool-call-parser.ts:155-180 | every printed object with members leads with the spelling of its first key |
| ToolCallCandidates.EnclosingIsEnough | src/agent/tool-call-parser.ts:163-177 | wherever the keyword stands in a printed object or array, the search finds that text or one inside it, if fewer brackets open before the keyword than it may try |
| BoundedQueue.BoundedQueue.Push | src/bus/service.ts:45-58 | pushing refines the bounded FIFO under both overflow policies, counts overflows, and counts a removal exactly when the oldest is dropped |
| BoundedQueue.BoundedQueue.Shift | src/bus/service.ts:60-67 | shifting takes the oldest element, counts its removal, and copies what is left exactly when it compacts |
| BoundedQueue.BoundedQueue.Valid | src/bus/service.ts:33-90 | the backing list stays within max(capacity + 511, 2 * capacity - 1), and the copies counted never exceed the removals counted |
| MessageBus.EveryInterleaving | src/bus/service.ts:118-224 | over every sequence of publish, consume, timeout and close: deliveries then queue are a subsequence of what was published, nothing is lost uncounted, waiters mean an empty queue |
| MessageBus.SettledOnce | src/bus/service.ts:206-223 | a settled consume keeps its result forever |
| MessageBus.BusChannel.PublishMessage | src/bus/service.ts:118-122 | the object's publish is the state machine's publish event |
| MessageBus.BusChannel.ConsumeMessage | src/bus/service.ts:197-224 | the object's consume is the state machine's consume event |
| MessageBus.BusChannel.OnTimeout | src/bus/service.ts:217-221 | a timeout withdraws the waiter and settles it empty, once |
| MessageBus.BusChannel.CloseChannel | src/bus/service.ts:168-182 | closing settles all waiters empty and clears the queue |
| MessageBusLaws.BooksAreKept | src/bus/service.ts:118-204 | told from the events alone: what is on record as published is every message sent before the first close, and the tickets are the consumers that asked |
| MessageBusLaws.PublishServesLongest | src/bus/service.ts:188-195 | a message sent while consumers wait settles the one that has waited longest, with that message, and no other |
| MessageBusLaws.ConsumeTakesOldest | src/bus/service.ts:197-224 | a consumer gets the oldest message queued, nothing from a closed channel, and waits otherwise |
| MessageBusLaws.TimeoutSettlesItsOwn | src/bus/service.ts:212-221 | a timer settles its own consumer if it still waits, and nothing else |
| MessageBusLaws.CloseSettlesAll | src/bus/service.ts:168-182 | a close settles exactly those who wait, with nothing |
| MessageBusLaws.MatchedInOrder | src/bus/service.ts:188-224 | however publishes and consumes interleave, without overflow the t-th consumer has the t-th message or waits for it |
| MessageBusLaws.FloodKeepsByPolicy | src/bus/service.ts:45-58 | of messages nobody asks for, the newest or the oldest are kept by the policy and the others counted |
| PlainText.JoinSplit | src/agent/memory-chunker.ts:117-121 | splitting at newlines and joining gives the text back |
| PlainText.SplitInk | src/agent/memory-chunker.ts:28-107 | splitting at white space loses no visible character |
| MemoryChunker.SplitByHeading | src/agent/memory-chunker.ts:55-93 | sections follow each other without a gap, each from a heading or the top to before the next heading, carrying that heading and its trimmed text; only blank text before the first heading is dropped |
| MemoryChunker.SplitByParagraph | src/agent/memory-chunker.ts:95-143 | the chunks are those of a greedy packing of the non-blank paragraphs, each later chunk led by the tail of the one before |
| MemoryChunker.ChunkMarkdown | src/agent/memory-chunker.ts:28-45 | a document's chunks are its sections, whole when small and packed by paragraphs otherwise; `ChunkLaws` says what that means for the chunks |
| ChunkConservation.ChunkingConserves | src/agent/memory-chunker.ts:28-143 | what the sections are cut into, overlaps left out, holds the visible text of the document |
| ChunkConservation.HeadingsOpenSections | src/agent/memory-chunker.ts:62-84 | every heading line opens a section with its level and title |
| ChunkConservation.PackingIsUnique | src/agent/memory-chunker.ts:102-127 | the paragraphs can be packed in one way only, so the contract of the packing leaves no choice |
| ChunkLaws.ChunksConserveText | src/agent/memory-chunker.ts:28-143 | leave out what each chunk carries over from the one before it, and the visible text of the chunks read in order is the document |
| ChunkLaws.EachSectionHasItsChunks | src/agent/memory-chunker.ts:33-42 | the chunks come section by section; one of at most 1500 characters has exactly one chunk, with its heading, level, lines and content, a longer one has chunks that carry its heading and follow on by lines |
| ChunkLaws.PacketsAreFull | src/agent/memory-chunker.ts:104-127 | paragraphs share a chunk only up to 1500 characters with what is carried over, and a chunk is closed only when the next would exceed that |
| ChunkLaws.OverlapIsLastTwoLines | src/agent/memory-chunker.ts:121-124 | what is carried over is the last two lines, or all of a shorter text |
| ChunkLaws.LineCountIs | src/agent/memory-chunker.ts:108-108 | a text has one line more than it has newlines |
| ChunkLaws.TopHasNoHeading | src/agent/memory-chunker.ts:57-59 | only what comes before the first heading is without one, at level zero |
| ChunkLaws.ParagraphsArePartedAtBlankLines | src/agent/memory-chunker.ts:96-96 | paragraphs are parted at runs of two or more newlines and nowhere else |
| ChunkLaws.LinesArePartedAtNewlines | src/agent/memory-chunker.ts:29-29 | lines are parted at newlines, with or without a carriage return, and nowhere else |
| ChunkLaws.HeadingIsFound | src/agent/memory-chunker.ts:17-17 | one to six hash signs, white space and a title make a heading of that level and trimmed title |
| ChunkLaws.FoundIsHeading | src/agent/memory-chunker.ts:17-17 | and nothing else does |
| ChunkId.IdTextInjective | src/agent/memory-chunker.ts:145-150 | the text a chunk id is hashed from determines document, lines and content hash, whatever colons the document key holds |
| ChunkIndex.ChunkStore.Upsert | src/agent/memory-rechunk-worker.ts:60-66 | insert or update on conflict; only an insert reaches the full-text index |
| ChunkIndex.ChunkStore.DropGone | src/agent/memory-rechunk-worker.ts:37-58 | rows whose ids are gone leave the table, the index and the vectors |
| ChunkIndex.ChunkStore.UpsertChanged | src/agent/memory-rechunk-worker.ts:68-74 | exactly the chunks without a row under their id and hash are written; index, ids and vectors stay sound |
| ChunkIndex.ChunkStore.Rechunk | src/agent/memory-rechunk-worker.ts:24-87 | after a job the document's rows are its chunks, new rows with kind, day and heading; other documents are untouched, the index is the content column, vectors belong to live rows; an agreeing document costs nothing |
| ChunkIndex.SameIdSameChunk | src/agent/memory-chunker.ts:145-150 | rows and chunks with one id agree on document, lines and content |
| ChunkIndex.UpdateChangesNothing | src/agent/memory.service.ts:163-178 | the update branch writes back what is there, which is why no update trigger is needed |
| ChunkIndex.OthersStillAgree | src/agent/memory-rechunk-worker.ts:24-87 | a job leaves every other document in agreement with its chunks |
| Subagents.Registry.Spawn | src/agent/subagents.ts:182-224 | starts an agent unless ten are running, and keeps the cap and the spawn order |
| Subagents.Registry.Finish | src/agent/subagents.ts:211-213 | an agent whose run ends leaves the running ones |
| Subagents.Registry.Cancel | src/agent/subagents.ts:233-255 | cascading cancel ends and aborts exactly the target and everything running below it; others keep signal and status |
| Subagents.Registry.CancelChildren | src/agent/subagents.ts:258-267 | cancels the families of all children and returns how many children there were |
| Subagents.FamilyIsSelfAndChildren | src/agent/subagents.ts:246-253 | the agents below one are itself and the families of its children |
| Subagents.ChildrenRankHigher | src/agent/subagents.ts:186-207 | children are spawned after their parents, which bounds the recursion |
| ToolCallGuard.ConsecutiveToolCallGuard.Observe | src/agent/tool-call-guard.ts:32-55 | blocks exactly when this and the `max_repeated_rounds` observations before it since the last reset agree |
| ToolCallGuard.TailRunAgrees | src/agent/tool-call-guard.ts:42-49 | the counter of repeated rounds says how many of the last observations agree |
| AgentLoop.RunAgentLoop | src/agent/loop.service.ts:228-364 | the loop with its guard ends as the history-based reference says, never running, within its turns |
| AgentLoop.NeverThreeInARow | src/agent/loop.service.ts:296-325 | no batch is executed more than twice in a row |
| AgentLoop.RepetitionIsReal | src/agent/loop.service.ts:297-307 | the loop fails for repetition only on a third request for what it executed in both turns before |
| AgentLoop.LoopTakesCourse | src/agent/loop.service.ts:251-359 | told from the answers: each turn taken was due and did what was asked, and the loop ends with the first reason that holds |
| TaskLife.TaskState.RunTaskLoop | src/agent/loop.service.ts:366-459 | a run, of a new task or of one that is there, does what the specification says; the nodes run are those whose indices the answers lead to, one after the other |
| TaskLife.RunTakesCourse | src/agent/loop.service.ts:396-455 | told from the answers: a run goes from node to node, to the index returned or the next one, until an abort, an exception, a status, the end of the nodes or of the turns ends it |
| TaskLife.StraightRun | src/agent/loop.service.ts:408-437 | nodes that all go on and name no next index are run from first to last, each once, and the task is completed |
| TaskLife.ThrowFails | src/agent/loop.service.ts:438-442 | a node that throws fails the task |
| TaskLife.TaskState.Resume | src/agent/loop.service.ts:183-226 | a resume extends the limit when it is used up and is granted three times; the next attempt cancels |
| TaskLife.ResumeGoesOn | src/agent/loop.service.ts:183-226 | a resumed task goes on where it stopped with a turn to take, unless the cap is used up; one that is over or was resumed three times does not |
| TaskLife.LifeIsBounded | src/agent/loop.service.ts:200-226 | over any life there are at most 3 resumes, and at most max(M, min(500, f(f(f(M))))) turns |
| TaskLife.BoundIsReached | src/agent/loop.service.ts:200-226 | for every limit some life uses all of that bound |
| TaskLife.CompletedRunsNoMore | src/agent/loop.service.ts:186-186 | a completed or cancelled task runs no further turn, whatever is done to it |
| TaskLife.OutsideEndsIt | src/agent/loop.service.ts:60-178 | a cancelled task runs no more; a task left running waits for the user or has failed; one that waits too long is cancelled |
| FieldPaths.GetWritten | src/agent/phase-loop-runner.ts:1328-1339 | the written path and all paths below it read what was written |
| FieldPaths.GetElsewhere | src/agent/phase-loop-runner.ts:1328-1339 | a path neither above nor below the written one reads as before |
| FieldPaths.GetAbove | src/agent/phase-loop-runner.ts:1328-1339 | a path above reads its object with the rest of the path written |
| FieldPaths.PutTwice | src/agent/phase-loop-runner.ts:1328-1339 | the second of two writes wins |
| FieldPaths.PutWhatIsThere | src/agent/phase-loop-runner.ts:1316-1339 | writing back what is there changes nothing |
| FieldPaths.PutsCommute | src/agent/phase-loop-runner.ts:1328-1339 | writes to paths apart from each other commute |
| ObjectHeap.ResolveField | src/agent/phase-loop-runner.ts:1316-1325 | reading a nested field follows the path through the objects there, shared or not |
| ObjectHeap.SetNestedField | src/agent/phase-loop-runner.ts:1328-1339 | on any objects updated in place, shared or not, the loop is the write `Write`, with new objects where a value had no fields |
| ObjectHeap.ApartReadsAsBefore | src/agent/phase-loop-runner.ts:1328-1339 | if no other path leads to the object that a write changes, paths apart from it read the very values they read before |
| ObjectHeap.WrittenReads | src/agent/phase-loop-runner.ts:1328-1339 | then the written path and all below it read what was written |
| ObjectHeap.LocalIffAlone | src/agent/phase-loop-runner.ts:1328-1339 | a write leaves all paths apart from it alone, whatever is written, exactly when no other path leads to the object it changes |
| ObjectHeap.WriteIsPut | src/agent/phase-loop-runner.ts:1328-1339 | then a heap that shows a tree shows the tree with `Put` done to it |
| FieldMappings.ApplyFieldMappings | src/agent/phase-loop-runner.ts:1291-1314 | the loop over the mappings on objects updated in place is `Applied`, values carried by reference |
| FieldMappings.CarryIsWrite | src/agent/phase-loop-runner.ts:1303-1310 | putting a value into the target's object, there or new, is one nested write in the memory as a whole |
| FieldMappings.StartTracked | src/agent/phase-loop-runner.ts:246-250 | when the mappings start, the output is the memory of its own node, and only what the memory already shares counts as shared |
| FieldMappings.OtherPathsKept | src/agent/phase-loop-runner.ts:1291-1314 | with no write through a shared object, memory apart from every written target reads the very values it read before |
| FieldMappings.LastWriterWins | src/agent/phase-loop-runner.ts:1291-1314 | and a target reads what its mapping carried unless a later mapping writes above or below it |
| FieldMappings.MappingCarriesItsField | src/agent/phase-loop-runner.ts:1297-1312 | a mapping for the node puts the field of its output, or all of it, at the target |
| FieldMappings.OthersCarryNothing | src/agent/phase-loop-runner.ts:1298-1300 | mappings for other nodes, and for fields that are not there, change nothing |
| FieldMappings.SharedFieldIsWritten | src/agent/phase-loop-runner.ts:246-250 | mappings on which a path apart from all targets changes |
| FieldMappings.SharedTargetIsWritten | src/agent/phase-loop-runner.ts:1291-1314 | mappings on which a target does not read what was carried, though nothing writes to it later |
| FieldMappings.OwnFieldIsWritten | src/agent/phase-loop-runner.ts:1291-1314 | a mapping into the object it carries makes the object a part of itself |
| RankFusion.RrfMerge | src/agent/memory-scoring.ts:26-45 | each ranked id once, with its reciprocal rank sum, highest first, equal scores as met in the first ranking and then the second |
| RankFusion.MergedIsUnique | src/agent/memory-scoring.ts:26-45 | the two rankings leave no choice for the merged one |
| RankFusion.ScoreIsReciprocals | src/agent/memory-scoring.ts:33-40 | an entry at place p of one ranking and q of the other scores 1 / (k + p) + 1 / (k + q) |
| RankFusion.OrderMeans | src/agent/memory-scoring.ts:42-44 | scores fall along a ranking, and equal scores stand as they were met |
| RankFusion.HigherWhereverFoundIsHigher | src/agent/memory-scoring.ts:19-45 | an id above another in every ranking that holds the other scores strictly higher and stands above it, found by both searches or by one |
| RankFusion.MergedIsPositive | src/agent/memory-scoring.ts:33-40 | every merged score is positive |
| RankFusion.ApplyTemporalDecay | src/agent/memory-scoring.ts:52-62 | the faded scores of the same entries, highest first, equal scores in the order they came |
| MmrRerank.Jaccard | src/agent/memory-scoring.ts:117-122 | common tokens over all tokens, nothing for two empty sets |
| MmrRerank.SimilarityIsFair | src/agent/memory-scoring.ts:117-122 | between zero and one, the same both ways, one exactly for equal sets |
| MmrRerank.NearestPicked | src/agent/memory-scoring.ts:96-104 | the loop over what was picked computes the nearest likeness |
| MmrRerank.ClosestIsGreatest | src/agent/memory-scoring.ts:96-104 | the nearest likeness is the greatest to any picked entry, and some picked entry has it |
| MmrRerank.Rerank | src/agent/memory-scoring.ts:71-114 | as many entries as the limit allows, each the first of the best by marginal relevance among what was left; a slice when there is nothing to re-rank; negative limits as in the source |
| MmrRerank.EachPickIsBest | src/agent/memory-scoring.ts:90-112 | no entry left over has more of the weighted share of the first score, less the weighted greatest likeness to an entry picked before, than the pick |
| MmrRerank.VarietyWins | src/agent/memory-scoring.ts:96-108 | of entries that score the same, the one more like what was picked is not picked first |
| MmrRerank.AsManyAsAllowed | src/agent/memory-scoring.ts:71-90 | how many entries come back, for every limit, and that nothing is reordered where nothing is re-ranked |
| MmrRerank.PickedIsPart | src/agent/memory-scoring.ts:109-111 | nothing is picked twice or lost |
| MmrRerank.SmallerLimitIsPrefix | src/agent/memory-scoring.ts:71-112 | the result for a smaller limit is a prefix of the result for a larger one, on both paths; for negative limits, exactly when it is |
| MmrRerank.FirstPick | src/agent/memory-scoring.ts:79-108 | on any ranking, sorted or not, the first pick is the first of those that score most, or, under a negative first score, of those that score least |
| MmrRerank.FirstPickIsTopIff | src/agent/memory-scoring.ts:79-108 | the first pick scores most exactly when the first score is not negative or all scores are equal |
| MmrRerank.NegativeScoresPickTheLowest | src/agent/memory-scoring.ts:81-106 | a ranking with negative scores whose lower entry is picked first |
| MmrRerank.TopStaysOnTop | src/agent/memory-scoring.ts:71-112 | on a ranking in order with a positive top, whatever the weight above zero, the top entry stays on top |
| MmrRerank.Search | src/agent/memory.service.ts:514-535 | merge, fade and re-rank: the result starts with the entry that fades to the greatest score, ties as the merge placed them |

## Left out

- Agents, critics, node handlers, sub-workflows, worktrees, presets, skills, prompts: oracles on the tape of answers.
- Texts in the run state (results, feedback, contexts, memory, timestamps, loop counters of a phase, critic records) and all event emission, logging and persistence: no claim is made about them. Exceptions thrown by the store or by callbacks are not modelled.
- PhaseLoopAnswers.ParallelPhaseGoesOn: counts failures for agents and definitions with ids of their own; `LastOutcomeStays` says what becomes of records otherwise.
- When an agent run crashes, the agents' own records are left as they were; the source may have written some of them before the exception.
- Retry, error-handler, loop and batch nodes are modelled by the records they may rewrite (`Effect`), not by how; nodes that run themselves, directly or through others, are not modelled. Which handlers may throw is part of the definition.
- PhaseLoopTotal.AlwaysTotalIff: its handlers may answer anything, so a branch node may also decide nothing.
- Two orchestration nodes with one id share the first record in the source and one record here; a caller's later changes to a `resume_state` object are not seen.
- PhaseLoopRuns.ResumedCompletionIsTotal: takes the definition to be the one the first run had.
- Workflow.RunWorkflow: asks for unique ids; with repeated ids the sort only promises to invent no node.
- ToolCallCandidates.Candidates: the source's loop does not end on an empty keyword, so the model asks for one; trimming a candidate does nothing, since it starts and ends with brackets.
- Parsing candidates into tool calls, normalizing arguments and removing duplicates: easy members over values.
- JSON texts cover numbers by their characters, and let any escape sequence stand for any character: neither plays a part in extraction.
- MessageBus.EveryInterleaving: is about one channel; the three channels of a bus share only the closed flag. A falsy message, which the source would not hand out directly, is not modelled.
- Text lengths are counted in characters, not in UTF-16 units.
- Jobs that overlap, a job stopped between its statements, a missing vector table, normalization of vectors, partial answers of the embedding service, and the main thread's copy of the job (`handle_chunk_result`).
- The heading, kind, day and creation time of a row that stays: chunk ids do not cover them, so they may be stale.
- MemoryChunker.SplitByParagraph: start and end lines are the source's own arithmetic, which drifts from the document's lines; no claim relates them to the document.
- Pruning of finished subagents, waiting for completion, and what a cancelled agent later records: `UpdateStatus` may mark a cancelled agent completed, as the source may.
- ObjectHeap.SetNestedField: arrays and prototypes are not modelled. Paths are lists of keys; splitting the dotted text is not modelled.
- AgentLoop.RunAgentLoop: callbacks may stop the loop but not rewrite its limit; signatures stand for batches, and how a signature is computed is not modelled.
- TaskLife.LifeIsBounded: nodes do not write the reserved memory keys or the limits; a task deleted and created again starts a new life.
- Stopping a loop or cancelling a task from outside while it runs: the store keeps copies, so nothing reaches the running loop.
- RankFusion.RrfMerge: asks for `k > 0`, as the source's default is; with `k` at zero the source scores a first place infinite, which no real number is.
- RankFusion.ApplyTemporalDecay: takes what age leaves of a score as a function of the id, since its exponential plays no part in the order claimed; re-ranking and the whole search ask that it is positive only where they claim something of positive scores.
- The source calls the weight of relevance `lambda`; rounding, infinities and `NaN` are not modelled, scores are real numbers.
- Redis transport, backend routing and breakers, dashboard, authentication and start-up code.

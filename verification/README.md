# Synode: verified model

Synode runs language-model agents. The model, the tools and the human operator may answer anything; what stays is
a set of deterministic state machines and algorithms that have to be right whatever those answers are. This Dafny
project models them and proves what they guarantee. `dafny verify dfyconfig.toml` checks everything.

- **Coding graph and review gate** (`CodingGraph.dfy`, `CodingOutcomes.dfy`, `CodingResume.dfy`). Nodes update a state
  from an oracle's answers, routes are functions, any node may abort. Whole runs are lists of visits. The continuation
  after a patch approval is modelled as written, as a loop, compared with the compiled graph, and followed over any
  number of approvals.
- **Action/observation loop** (`NativeLoop.dfy`, `NativeLoopOutcomes.dfy`). The loop, its phases, tool filter,
  duplicate limit and finish gate in three modes.
- **Worker ordering** (`TopologicalOrder.dfy`, `Precedence.dfy`, `WorkerOrder.dfy`). The sorted-ready-list algorithm
  against the definition of a lexicographically least schedule, and which dependencies every schedule respects.
- **Text patches** (`Text.dfy`, `Lines.dfy`, `Patches.dfy`, `PatchNormalization.dfy`, `NormalizedPatches.dfy`,
  `PatchCandidates.dfy`). Leftmost `find`, non-overlapping `count`, line windows, re-indentation, expansion to a
  function block, validation, sequential application and the choice of a candidate.
- **Fabricator runs** (`FabricatorModel.dfy`, `FabricatorRun.dfy`, `FabricatorTheorems.dfy`, `FabricatorHistory.dfy`,
  `FabricatorCommands.dfy`, `FabricatorReview.dfy`, `FabricatorChallengers.dfy`, `FabricatorFailures.dfy`,
  `FabricatorChallenge.dfy`, `LockProtocol.dfy`, `FabricatorLock.dfy`). Every command as the list of contents it
  writes to `run.json`; theorems over all runs; the status graph of single writes; the commands themselves as methods
  of a run directory that take the lock, read, change and write, and keep a record that carries those theorems; and
  the lock file protocol under every interleaving, with processes killed anywhere.
- **Findings, node names, token usage** (`FindingClusters.dfy`, `FindingReports.dfy`, `NodeNames.dfy`,
  `TokenMetrics.dfy`).
- `Strings.dfy` holds string order, sorting and decimal numerals, `Sequences.dfy` lists of names, `Options.dfy`
  optional values.

Oracles are arbitrary functions of the step number, so a theorem over all oracles covers every adaptive behaviour.

## Where the code is not what one might expect

The model keeps the code's behaviour; each point below has its own lemma.

- A verification failure answered by a `no_change` repair sends the compiled graph to `verify`, the resume driver to
  `patch_apply` with an empty proposal, which `native.patch_apply` refuses. The two agree exactly when that never happens,
  and an accepted driver run contains a failed application exactly when it does, or when it started without patches.
- The repair counter restarts with every continuation after an approval, so a run can enter repair more often than
  `repair_attempts` says; the exact bound is proved.
- `count(old_text) == 1` does not mean a single position when the text overlaps itself.
- A complaint moves the loop to its repair phase, which offers mutation tools before anything was inspected; and the
  strict filter offers every allowed tool when it would otherwise offer none. Inspection is sure to come first only where
  no mutation is allowed.
- Worker order ignores a dependency that leaves the selected roles on its way.
- `mark-decision-ready` is accepted while a required challenge is outstanding, exactly from `synthesis-ready`.
- A challenge dispatch that lacks only resources has already recorded its round and an intermediate status that no
  guarded command leaves except towards blocked or cancelled.
- A recorded agent failure is never cleared, so the guide stays silent from then on.
- `render-prompts` and the raw challenge rendering overwrite terminal statuses.
- A process killed inside its section leaves the lock file behind for good.

## Model

| member | source | states |
|---|---|---|
| `CodingGraph.AcceptedRunIsVerified` | src/synode/application/graph/engine.py:139-174 | for every behaviour of models, tools and operators: a fresh native coding run whose review may proceed has a successful verify step with no apply or verify after it, all patch applications succeeded, the last patch results are all ok, and no visited state ever carried a repair error or failure category |
| `CodingGraph.CompletedCodingRunIsVerified` | src/synode/application/orchestration.py:772-848 | such a run is reported `completed` only if no approval is pending and it was plan-only or verified as above |
| `CodingGraph.AcceptedIsVerified` | src/synode/application/graph/engine.py:443-485 | the same from any node of the native path and any state the path can be entered in |
| `CodingGraph.AcceptedAllApplied` | src/synode/application/graph/engine.py:1572-1603 | a failed application that is not a `no_change` is skipped by verify and cannot end accepted; so an accepted run never applied unsuccessfully |
| `CodingGraph.ReviewIff` | src/synode/application/graph/engine.py:1649-1657 | the merged review proceeds exactly when the precheck is clean and the reviewer proceeds without blockers |
| `CodingGraph.FailureSticks` | src/synode/application/graph/engine.py:2669-2687 | repair errors and failure categories are never cleared, so an unmarked end means no visited state was marked |
| `CodingGraph.VisitsBounded` | src/synode/application/graph/engine.py:157-173 | from any node, repair is entered at most as often as attempts are left, apply and verify at most once more; the run ends on a lexicographic measure of attempts and node height |
| `CodingGraph.SynthesisOnce` | src/synode/application/graph/engine.py:139-174 | a run that is not aborted visits the synthesizer exactly once, an aborted one at most once |
| `CodingGraph.FreshRunBounded` | src/synode/application/graph/engine.py:459-469 | in numbers for a whole run: at most `repair_attempts` repairs, `repair_attempts + 1` applies and verifies, one synthesis |
| `CodingGraph.ResumeAfterPatchApproval` | src/synode/application/graph/engine.py:177-209 | the hand-written continuation visits exactly the nodes and states of its specification, and returns nothing when there is no artifact |
| `CodingGraph.DriveApplyAgrees` | src/synode/application/graph/engine.py:181-209 | that continuation equals the compiled graph entered at `patch_apply`, visits and states alike, if and only if no repair of the run decided `no_change` |
| `CodingGraph.DriverAcceptedIsVerified` | src/synode/application/graph/engine.py:177-209 | an accepted continuation ends with a clean precheck and a successful verification after its last applied patch, `no_change` repairs included |
| `CodingGraph.DriverBounded` | src/synode/application/graph/engine.py:189-205 | the continuation has the same bounds on repair, apply and verify visits |
| `CodingGraph.DriverAllAppliedIff` | src/synode/application/graph/engine.py:185-203 | where "every patch application of an accepted run succeeded" holds for the continuation: exactly when it starts from a proposal with patches and no repair of the run decided `no_change`; from any state, over every behaviour |
| `CodingOutcomes.ModePath` | src/synode/application/graph/engine.py:443-450 | every behaviour of every mode: after intake and supervisor a run visits only the nodes of its mode's path, starting with its first node unless aborted |
| `CodingOutcomes.PlanOnlyOnlyReports` | src/synode/application/graph/engine.py:443-450 | a plan-only run visits intake, supervisor and synthesizer only, so it leaves the workspace alone |
| `CodingOutcomes.NativeOrWorkers` | src/synode/application/graph/engine.py:443-450 | any other finished run inspects exactly when it is a coding run with the native coder, and runs worker roles exactly otherwise |
| `CodingOutcomes.FakeProviderNeverRepairs` | src/synode/application/graph/engine.py:459-469 | outside coding runs of a real provider no repair is visited |
| `CodingOutcomes.RunIsChain` | src/synode/application/graph/engine.py:139-174 | the visits of a run are node executions, each on the state the one before left, linked by the routes |
| `CodingOutcomes.AcceptedAnswers` | src/synode/application/graph/engine.py:1100-1398 | in terms of the oracle's answers: an accepted native run had no failed inspection, no rejected proposal or operator question, no failed application and no objecting reviewer |
| `CodingOutcomes.AcceptedVerification` | src/synode/application/graph/engine.py:1572-1603 | and its last verification, with no application after it, was answered by success |
| `CodingOutcomes.AcceptedWorkers` | src/synode/application/graph/engine.py:2669-2694 | a run over worker roles is accepted only if every worker result is ok and the reviewer proceeds |
| `CodingOutcomes.FreshFailuresReviewed` | src/synode/application/graph/engine.py:453-485 | a failed inspection, proposal or repair is followed by the reviewer |
| `CodingOutcomes.RepairCounts` | src/synode/application/graph/engine.py:1314-1398 | every repair counts as an attempt, rejected or not, except an operator question |
| `CodingOutcomes.CategoryIs` | src/synode/application/graph/engine.py:1317-1352 | the failure category of a rejected proposal and of a rejected repair |
| `CodingOutcomes.ReviewVerdictIff` | src/synode/application/graph/engine.py:1606-1663 | the merged verdict blocks exactly under a precheck blocker, a reviewer's blocker or a blocking verdict, and is the reviewer's own otherwise |
| `CodingOutcomes.OutcomeIff` | src/synode/application/orchestration.py:772-848 | a finished run is reported waiting, failed or completed exactly by pending approvals, mode and acceptance |
| `CodingResume.ContinuationOutcomeIff` | src/synode/application/orchestration.py:742-848 | the same for a continuation |
| `CodingResume.AcceptedContinuation` | src/synode/application/graph/engine.py:177-209 | the review gate of a continuation in full: accepted means verified after the last applied patch, a clean precheck, and no failure mark in any visited state |
| `CodingResume.CompletedContinuation` | src/synode/application/orchestration.py:742-848 | a continued run is reported `completed` only if no approval is pending and it passed that gate |
| `CodingResume.DriverFailureSticks` | src/synode/application/graph/engine.py:181-209 | the continuation clears no failure mark, so an unmarked end means no visited state was marked |
| `CodingResume.RepairsOverContinuations` | src/synode/application/graph/engine.py:212-252 | the exact bound over a graph run continued n times: at most `repair_attempts + n * (repair_attempts - 1)` repairs over all behaviours (0 for a limit of 0), and some run, stopped at an approval in every segment, reaches it |
| `CodingResume.GraphRepairsStored` | src/synode/application/graph/engine.py:1377-1398 | in a run stopped at an application every repair has stored its proposal, which is what makes the next continuation restart its counter at one |
| `CodingResume.DriverRepairsStored` | src/synode/application/graph/engine.py:189-205 | the same for a continuation stopped at an application |
| `NativeLoop.RunNativeLoop` | src/synode/application/graph/engine.py:651-950 | the loop over trace, results, complaints and seen calls computes the run of its step specification, for every oracle |
| `NativeLoopOutcomes.PhaseIff` | src/synode/application/graph/native_loop_policy.py:27-46 | each of the five phases exactly, from the pending complaint, the last result, the verification after mutations, the contract and earlier finish attempts |
| `NativeLoopOutcomes.StepReturnsIff` | src/synode/application/graph/engine.py:878-936 | a step returns exactly on a finish whose payload meets the contract while the mode's evidence rule holds and every mutation is verified |
| `NativeLoopOutcomes.StepStopsIff` | src/synode/application/graph/engine.py:706-863 | every other way to stop, exactly, from the answer, the offered tools and the earlier attempts |
| `NativeLoopOutcomes.StepExecutesIff` | src/synode/application/graph/engine.py:786-829 | a tool runs exactly on the first attempt of an offered call, and nothing else adds a result |
| `NativeLoopOutcomes.StepComplainsIff` | src/synode/application/graph/engine.py:693-914 | a step that goes on leaves no complaint exactly if a tool ran or the operator replied |
| `NativeLoopOutcomes.StepLogs` | src/synode/application/graph/engine.py:693-925 | which steps log an entry, with its number, phase, kind and error mark |
| `NativeLoopOutcomes.RunEnds` | src/synode/application/graph/engine.py:651-950 | a run is its steps one after another up to the first that halts, or all of them |
| `NativeLoopOutcomes.RunReturnsIff` | src/synode/application/graph/engine.py:878-950 | over every run: it returns exactly when some reached step is answered by a finish with a valid payload while the evidence is there, and at that step |
| `NativeLoopOutcomes.RunStops` | src/synode/application/graph/engine.py:737-950 | why a run stopped, from the answer at its last step |
| `NativeLoop.ToolRoles` | src/synode/application/graph/native_loop_policy.py:12-23 | which tools discover, mutate and verify, and which do two of these |
| `NativeLoop.FindLastTool` | src/synode/application/graph/native_loop_policy.py:208-212 | index of the last successful result of the given tools, or none |
| `NativeLoop.LastToolIndex` | src/synode/application/graph/native_loop_policy.py:208-212 | that index carries such a result and no later one does |
| `NativeLoop.GateIff` | src/synode/application/graph/native_loop_policy.py:93-113 | in all three modes the gate accepts exactly when the mode's evidence rule holds and every successful mutation is followed by a successful verification |
| `NativeLoop.VerifiedIff` | src/synode/application/graph/native_loop_policy.py:219-225 | the comparison of last indices says exactly that |
| `NativeLoop.GateAgreesWithPhase` | src/synode/application/graph/native_loop_policy.py:27-46 | the gate accepts in every `patch` or `finish_ready` state and refuses in every `verify` state |
| `NativeLoop.ReturnIsVerified` | src/synode/application/graph/engine.py:878-936 | a loop that returns has a verification strictly after each successful mutation, and some success where the mode asks for it |
| `NativeLoop.RunCoherent` | src/synode/application/graph/engine.py:651-936 | over every run: no call signature executes twice, attempts stay within limit + 1, results are the trace's observations in order, the trace numbers its finished steps without gaps |
| `NativeLoop.AttemptBounds` | src/synode/application/graph/native_loop_policy.py:85-90 | a signature is attempted at most 3, 4 or 5 times in strict, guided and autonomous mode |
| `NativeLoop.RepeatingModelIsStopped` | src/synode/application/graph/engine.py:737-765 | the bound is reached: a model repeating one discovery call is stopped at exactly that attempt |
| `NativeLoop.StrictOffersIff` | src/synode/application/graph/native_loop_policy.py:49-67 | the strict filter offers a tool exactly when the phase has it, or when the phase has none of the allowed tools |
| `NativeLoop.StrictInspectDiscovers` | src/synode/application/graph/native_loop_policy.py:49-67 | in strict mode the inspect phase executes discovery tools only, when one is allowed |
| `NativeLoop.VerifyPhaseOffersMutationIff` | src/synode/application/graph/native_loop_policy.py:36-43 | the verify phase offers a mutation tool exactly when no discovery or verification tool is allowed |
| `NativeLoop.StrictSeparatesMutationsIff` | src/synode/application/graph/engine.py:652-736 | in strict mode no run executes a mutation right after a successful one, if and only if some discovery or verification tool is allowed or no mutation tool is |
| `NativeLoop.FallbackAllowsMutationsInARow` | src/synode/application/graph/native_loop_policy.py:64-67 | otherwise the filter's fallback lets two mutations run back to back |
| `NativeLoop.InspectsFirstIff` | src/synode/application/graph/engine.py:651-829 | "no mutation executes before another call has" holds for every behaviour, in every mode, exactly when no mutation tool is allowed (or the loop has one step, is strict and may discover) |
| `NativeLoop.MutationBeforeInspectionIff` | src/synode/application/graph/native_loop_policy.py:34-67 | in strict mode with a discovery tool and nothing executed yet, a mutation tool is offered exactly while a complaint is pending |
| `NativeLoop.ComplaintFirst` | src/synode/application/graph/engine.py:651-829 | so over every such run, a mutation that executes first directly follows a trace entry with a complaint |
| `NativeLoop.TrainingTransitions` | src/synode/application/graph/native_loop_policy.py:167-184 | one transition per trace entry, entry by entry |
| `Strings.LessIff` | src/synode/application/graph/engine.py:2281-2292 | the string order behind every sort: a proper prefix is smaller, otherwise the smaller code point at the first difference decides |
| `TopologicalOrder.LexLeqIff` | src/synode/application/graph/engine.py:2280-2292 | the list order behind the least schedule: a prefix comes first, otherwise the first differing role in string order |
| `TopologicalOrder.Order` | src/synode/application/graph/engine.py:2270-2295 | succeeds exactly when the edges among the listed roles have no cycle and then returns the lexicographically least schedule; otherwise names the sorted greatest set of roles each waiting for another of the set |
| `TopologicalOrder.LinkRoles` | src/synode/application/graph/engine.py:2271-2279 | incoming and outgoing hold exactly the edges with both ends listed |
| `TopologicalOrder.Release` | src/synode/application/graph/engine.py:2287-2292 | placing a role removes it from its targets' incoming sets and queues exactly those left without any |
| `TopologicalOrder.GreedyIsLeast` | src/synode/application/graph/engine.py:2280-2292 | exchange argument: always taking the least ready role gives a schedule below every other one |
| `TopologicalOrder.LeastScheduleUnique` | src/synode/application/graph/engine.py:2270-2295 | the least schedule is unique, so the listing order of roles and edges does not matter |
| `TopologicalOrder.StuckHasCycle` | src/synode/application/graph/engine.py:2293-2294 | a non-empty set of roles each waiting for another of the set contains a cycle |
| `TopologicalOrder.CycleExcludesSchedule` | src/synode/application/graph/engine.py:2293-2294 | with a cycle there is no schedule at all |
| `WorkerOrder.TopologicalWorkerOrder` | src/synode/application/graph/engine.py:2236-2267 | the selected roles of a snapshot: the least schedule of those the graph lists, followed by the others in their given order; fails exactly on a cycle among direct edges |
| `WorkerOrder.NodeByRoleIs` | src/synode/application/graph/engine.py:2242-2246 | the role index holds for each role exactly its last listed node |
| `WorkerOrder.RoleByNodeIs` | src/synode/application/graph/engine.py:2247 | the node index names for each node the role of its last entry |
| `Sequences.KeepInParts` | src/synode/application/graph/engine.py:2252-2267 | filtering a list of names keeps their order and repetitions |
| `WorkerOrder.DirectEdgesOnly` | src/synode/application/graph/engine.py:2247-2260 | an edge counts exactly when it joins two selected nodes directly |
| `WorkerOrder.DependencyKeptIff` | src/synode/application/graph/engine.py:2236-2267 | all schedules of the selected listed roles put a before b exactly when a path of snapshot edges leads from a to b without leaving those roles; a path through an unselected node does not count |
| `WorkerOrder.ReturnedOrderKeepsDependencies` | src/synode/application/graph/engine.py:2236-2267 | the returned order respects every such dependency |
| `Precedence.AlwaysBeforeIff` | src/synode/application/graph/engine.py:2270-2295 | without a cycle, every schedule puts a before b exactly when a walk of edges leads from a to b |
| `Precedence.ScheduleExistsIff` | src/synode/application/graph/engine.py:2293-2294 | a schedule exists exactly when there is no cycle |
| `Text.FindFromLeast` | src/synode/validation/patches.py:87-106 | `find` from a position misses no match at or after it: any other match lies at or after the one found, and there is none when it reports none |
| `Text.CountOne` | src/synode/validation/patches.py:49-51 | `count == 1` says the leftmost match has no match at or after its end |
| `Text.CountIsGreatest` | src/synode/validation/patches.py:49-51 | `count` is the greatest number of matches that do not overlap |
| `Text.CountOneUniqueIffBorderless` | src/synode/validation/patches.py:49-51 | `count(p) == 1` means "one position" in every text if and only if no proper prefix of p is also its suffix |
| `Text.OverlapCountedOnce` | src/synode/validation/patches.py:49-51 | for any other p, a text with two positions that is counted once |
| `Text.DisjointEditsCommute` | src/synode/validation/patches.py:104 | first-occurrence edits at disjoint places, each place single where applied, commute |
| `Text.NestedReplaceIsLocal` | src/synode/validation/patches.py:225-227 | replacing a block by an edit of itself edits the text only where the inner text stood |
| `Patches.PatchedContentByPath` | src/synode/validation/patches.py:87-106 | sequential application: contents and error report patch by patch |
| `Patches.ValidatePatchProposal` | src/synode/validation/patches.py:20-84 | the report in the source's order, for every action, with the unmodelled checks as arbitrary functions |
| `Patches.CheckPatches` | src/synode/validation/patches.py:39-56 | the per-patch findings: path, checksum, empty, not exactly once, identical |
| `Patches.ValidatesIff` | src/synode/validation/patches.py:20-84 | a `patch` proposal has an empty report exactly when each patch is sound against the given file, application reports nothing and the other checks are silent |
| `Patches.ValidatesWithoutPatchIff` | src/synode/validation/patches.py:31-38 | a `no_change` or `needs_operator` proposal validates exactly without patches, with a valid question where one is asked, and with the other checks silent |
| `Patches.ComplaintIff` | src/synode/validation/patches.py:39-54 | each per-patch complaint is raised under exactly its own condition, for its own patch |
| `Patches.ApplicationErrorIff` | src/synode/validation/patches.py:95-104 | application reports a patch exactly when its old text does not occur once in the text its predecessors left, and then leaves that text alone |
| `Patches.CleanReportApplies` | src/synode/validation/patches.py:87-106 | then every patch is applied at a counted-once place of the text left by its predecessors and edits nothing else, untouched files keep their text, and each length changes by the sum of new minus old lengths |
| `Patches.IndependentPatchesCommute` | src/synode/validation/patches.py:87-106 | two patches of one file at disjoint places, each single in every intermediate text, give the same contents in either order and no error |
| `Patches.SwapPatches` | src/synode/validation/patches.py:87-106 | hence such neighbours, or neighbours on different files, can be swapped anywhere in a proposal without changing contents or report |
| `PatchNormalization.NormalizePatchProposal` | src/synode/validation/patches.py:122-156 | the normalised proposal, patch by patch |
| `NormalizedPatches.ExpandedPatchApplies` | src/synode/validation/patches.py:135-156 | applying the normalised form of an expanded patch edits the file at one place of the inner text inside the block and nowhere else; when the edited block has to be re-indented, it replaces the block by the edited block with the indent before each line |
| `NormalizedPatches.NormalizedExpanded` | src/synode/validation/patches.py:135-156 | an expanded patch becomes the block, counted once, and the edited block |
| `NormalizedPatches.NormalizedDirect` | src/synode/validation/patches.py:135-156 | any other patch on a known file keeps its path, gets the file's checksum, and its own or the aligned old text with the new text re-indented to it |
| `NormalizedPatches.NormalizedUnknown` | src/synode/validation/patches.py:129-156 | on an unknown file only the indentation of the new text can change |
| `NormalizedPatches.DirectPatchApplies` | src/synode/validation/patches.py:135-156 | such a patch, counted once, edits the file at the one counted place with the re-indented new text |
| `NormalizedPatches.ExpandableIff` | src/synode/validation/patches.py:211-227 | a block can take the edit exactly when it is the file's, its symbol is required, inner text and block occur once, and the edit changes it |
| `NormalizedPatches.AlignedIs` | src/synode/validation/patches.py:293-327 | alignment in full: the first simple trimming that occurs once; else a counted-once window text when those agree up to line ends; else, with none or with two that differ, the old text |
| `NormalizedPatches.SimpleTrimmings` | src/synode/validation/patches.py:294-303 | the five trimmings in their order of preference |
| `NormalizedPatches.UnixEndsFirst` | src/synode/validation/patches.py:297 | replacing "\r\n" rewrites the first one and goes on behind it |
| `PatchNormalization.AlignOldTextToContent` | src/synode/validation/patches.py:293-327 | simple candidates, line windows and the choice among them |
| `PatchNormalization.FindWindows` | src/synode/validation/patches.py:308-320 | all windows whose stripped lines match, each with and without its line end |
| `PatchNormalization.NormalizedOldText` | src/synode/validation/patches.py:122-156 | on a known file the normalised old text is the original or occurs exactly once, and an original that occurs once is kept |
| `PatchNormalization.ChooseExactCountsOnce` | src/synode/validation/patches.py:321-327 | the "equivalent matches" case is safe: the bare text it returns is itself one of the counted-once candidates |
| `PatchNormalization.AlignedIsOldTextOrWindow` | src/synode/validation/patches.py:293-327 | alignment returns the old text, one of its trimmings, or lines of the file equal to the old text's lines up to surrounding blanks |
| `PatchNormalization.AlignFindsTheWindow` | src/synode/validation/patches.py:308-327 | if one window alone matches and occurs once, alignment returns it |
| `PatchNormalization.AcceptedIff` | src/synode/validation/patches.py:308-321 | the accepted candidates are exactly the counted-once texts of matching windows |
| `PatchNormalization.ExpandPatchToRequiredFunction` | src/synode/validation/patches.py:200-230 | the loop over blocks computes the expansion |
| `PatchNormalization.ExpansionIff` | src/synode/validation/patches.py:211-230 | a patch is expanded exactly when one block alone, of its file and with a required symbol, can take the edit |
| `PatchNormalization.ExpansionIsLocal` | src/synode/validation/patches.py:218-227 | applying an expansion edits the file inside the block at one place and nowhere else |
| `PatchNormalization.NormalizedReport` | src/synode/validation/patches.py:39-56 | after normalisation no checksum complaint can be raised, and "exactly once" only for an old text left unchanged |
| `PatchNormalization.NormalizedIsStable` | src/synode/validation/patches.py:122-156 | a normalised patch that occurs once is a fixed point, whatever symbols a second pass requires |
| `Lines.AlignNewTextIdempotent` | src/synode/validation/patches.py:269-281 | re-indentation settles after one application |
| `Lines.AlignedIndent` | src/synode/validation/patches.py:269-290 | afterwards the new text starts at least as deep as the old text |
| `Lines.AlignNewTextLines` | src/synode/validation/patches.py:269-281 | re-indentation in full: when needed, the old text's first indent goes before every line that is not blank, and nothing else changes; when not, nothing changes |
| `Lines.FirstIndentOfIs` | src/synode/validation/patches.py:284-290 | the first indent is that of the first line that is not blank |
| `Lines.IndentIs` | src/synode/validation/patches.py:288 | an indent is the longest beginning of blanks and tabs |
| `Lines.StripIs` | src/synode/validation/patches.py:294-305 | `strip` cuts exactly the blanks off both ends |
| `Lines.StripNewlinesIs` | src/synode/validation/patches.py:294-298 | stripping line ends cuts exactly those off both ends |
| `Lines.AsciiSpaces` | src/synode/validation/patches.py:294-305 | which ASCII characters are blanks |
| `Lines.SplitKeepEnds` | src/synode/validation/patches.py:308 | every kept line but the last has its line end |
| `Lines.SplitJoin` | src/synode/validation/patches.py:276-281 | splitting inverts joining on lines without line ends |
| `Lines.JoinSplit` | src/synode/validation/patches.py:276-281 | joining inverts splitting up to the final line end |
| `Lines.SplitKeepLines` | src/synode/validation/patches.py:308 | kept lines concatenate to the text, each with its own line end only |
| `PatchCandidates.SelectCandidate` | src/synode/application/graph/engine.py:1300-1334 | the node proceeds exactly when some candidate has no validation error, and then with the best one, the first among equals |
| `PatchCandidates.Best` | src/synode/application/graph/engine.py:1306-1313 | Python's `max` over valid candidates |
| `PatchCandidates.BestChangesFewestBytes` | src/synode/application/graph/engine.py:2602-2615 | among valid candidates of its kind the chosen one changes the fewest bytes |
| `PatchCandidates.PatchBeatsQuestionIff` | src/synode/application/graph/engine.py:2602-2615 | a valid patch is preferred to a valid operator question exactly below ten thousand changed bytes |
| `PatchCandidates.FocusedIsAskedIff` | src/synode/application/graph/engine.py:1286-1300 | the focused candidate joins exactly when symbols are required and no model candidate is valid |
| `FabricatorRun.RunDirectory.constructor` | src/synode/fabricator/fabricator.py:243-330 | a directory with a fresh run starts a valid record |
| `FabricatorRun.RunDirectory.DoRenderChallengePrompts` | src/synode/fabricator/fabricator.py:344-358 | keeps the record; succeeds exactly when the lock is free and the experts are known, selected, within the cap, with a brief and no round yet, whatever the status |
| `FabricatorRun.RunDirectory.RenderChallengeLocked` | src/synode/fabricator/fabricator.py:361-440 | succeeds exactly under those checks, and then the one round names the given experts, each once |
| `FabricatorRun.RunDirectory.DoDispatchExperts` | src/synode/fabricator/fabricator.py:443-452 | keeps the record; on success every selected expert has a fresh record and nobody else's changed |
| `FabricatorRun.RunDirectory.DoValidateResponses` | src/synode/fabricator/fabricator.py:455-460 | keeps the record; succeeds exactly when the lock is free, the status allows it and every expected response is present and valid; writes each completion up to the first bad response |
| `FabricatorRun.RunDirectory.CollectLocked` | src/synode/fabricator/council.py:68-115 | the loop over expected experts, each completion written before the next response is read |
| `FabricatorRun.RunDirectory.DoSynthesize` | src/synode/fabricator/fabricator.py:463-468 | keeps the record; success rests on a valid response of every selected expert, and a challenge is required exactly by the policy and a contested response |
| `FabricatorRun.RunDirectory.DoDispatchChallenge` | src/synode/fabricator/fabricator.py:471-482 | keeps the record; succeeds exactly when the challenge is renderable and resources allow, and fails with a changed run exactly when only resources are missing |
| `FabricatorRun.RunDirectory.UpdateDispatch` | src/synode/fabricator/council.py:417-429 | fresh expected records for every dispatched expert |
| `FabricatorRun.RunDirectory.DoDispatchReview` | src/synode/fabricator/fabricator.py:485-492 | keeps the record; on success one selected expert is registered as the reviewer and the history contains the validation, synthesis and decision before it |
| `FabricatorRun.RunDirectory.DoTraceDecision` | src/synode/fabricator/fabricator.py:495-499 | keeps the record; the stored report is empty exactly when every item is resolved and mentioned |
| `FabricatorRun.RunDirectory.DoNextStep` | src/synode/fabricator/fabricator.py:502-507 | keeps the record; the proposed command passes its own guard in the stored state, every overdue agent is on record, statuses and agents stay |
| `FabricatorRun.RunDirectory.DoSummary` | src/synode/fabricator/fabricator.py:516-521 | keeps the record; whether or not it wrote, every overdue agent is on record and statuses and agents stay |
| `FabricatorRun.RunDirectory.DoAgentTimeouts` | src/synode/fabricator/fabricator.py:548-552 | the same without the navigation evidence |
| `FabricatorRun.RunDirectory.DoAgentStarted` | src/synode/fabricator/fabricator.py:524-531 | keeps the record; succeeds exactly in its phase, for a dispatched expert, with memory and within the cap, and then no more agents are started than the cap in force |
| `FabricatorRun.RunDirectory.DoAgentCompleted` | src/synode/fabricator/fabricator.py:534-538 | keeps the record; on success the agent is settled and everyone else's record and failures are untouched |
| `FabricatorRun.RunDirectory.DoAgentFailed` | src/synode/fabricator/fabricator.py:541-545 | keeps the record; on success nobody else is touched, and whatever commands follow, the guide proposes nothing any more |
| `FabricatorRun.RunDirectory.DoMarkDecisionReady` | src/synode/fabricator/fabricator.py:555-562 | keeps the record; succeeds exactly when evidence is ready, every item is resolved and mentioned, and the status is one of two; the report is stored even when refused |
| `FabricatorRun.RunDirectory.DoMarkImplementationReady` | src/synode/fabricator/fabricator.py:565-569 | keeps the record; success is only possible with a validation, a synthesis and a decision in the history, in this order |
| `FabricatorRun.RunDirectory.DoFinalize` | src/synode/fabricator/fabricator.py:612-632 | keeps the record; finalising for human review succeeds only when the history contains all four milestones in order, and no finalisation touches a terminal run |
| `FabricatorReview.ReviewRecords` | src/synode/fabricator/council.py:109-325 | a successful review collection records exactly the reviewers whose response has a blocking verdict or a blocker, so none exactly when no response does |
| `FabricatorReview.CompletedReviewClean` | src/synode/fabricator/fabricator.py:612-632 | in a completed run the last successful review collection before finalisation, if any, had no such response |
| `FabricatorReview.BlockersAreLast` | src/synode/fabricator/council.py:109-110 | the blockers on record are those of the last successful review collection |
| `FabricatorReview.NoReviewNoBlockers` | src/synode/fabricator/council.py:109-110 | without a review collection none is on record |
| `FabricatorCommands.ExpertDispatchIff` | src/synode/fabricator/fabricator.py:443-452 | expert dispatch succeeds exactly when started, with evidence, resources and known selected experts; and what it writes |
| `FabricatorCommands.ReviewDispatchIff` | src/synode/fabricator/council.py:270-288 | review dispatch succeeds exactly from two statuses with resources and a known reviewer, chosen by preference |
| `FabricatorCommands.SynthesizeIff` | src/synode/fabricator/council.py:183-235 | synthesis succeeds exactly after the expert collection with a valid response of everyone |
| `FabricatorCommands.ImplementationReadyIff` | src/synode/fabricator/lifecycle.py:223-230 | implementation is ready exactly from a decision |
| `FabricatorCommands.FinalizeIff` | src/synode/fabricator/fabricator.py:612-632 | which result needs which status, and which status it gives |
| `FabricatorCommands.AgentCompletedIff` | src/synode/fabricator/lifecycle.py:163-187 | completion needs both files, valid or not, and records a missing one |
| `FabricatorCommands.AgentEventIff` | src/synode/fabricator/lifecycle.py:476-489 | events are accepted exactly of a registered agent while its phase's window is open |
| `FabricatorCommands.OverdueIff` | src/synode/fabricator/lifecycle.py:357-374 | the reading commands add exactly the failures of overdue agents that have neither finished nor failed |
| `FabricatorCommands.StepFrame` | src/synode/fabricator/fabricator.py:333-632 | every command changes only its own parts of the run |
| `FabricatorCommands.EvidenceRead` | src/synode/fabricator/fabricator.py:502-562 | when the stored readiness of the navigation evidence is read again |
| `FabricatorCommands.ReportIs` | src/synode/fabricator/council.py:118-146 | the traceability report names exactly the unresolved items and the resolved ones no document mentions |
| `FabricatorCommands.RefusedCollection` | src/synode/fabricator/council.py:68-107 | in every reachable run a refused collection is due to a first bad response, whose failure is recorded as missing or invalid |
| `FabricatorCommands.GuideIff` | src/synode/fabricator/lifecycle.py:258-354 | the guide in full: silent with a failure or blocker, and otherwise one command per status |
| `FabricatorCommands.AdvancesIff` | src/synode/fabricator/advance.py:21-58 | `advance` advances exactly when the refreshed guide proposes a command that succeeds |
| `FabricatorCommands.AdvanceRefreshes` | src/synode/fabricator/advance.py:52-58 | what it returns is refreshed once more |
| `FabricatorChallengers.CandidatesAre` | src/synode/fabricator/council.py:328-367 | the candidates of a contested synthesis: exactly the first ones up to the cap, blocking experts first, then challenging, then uncertain ones, each group in the order of selection |
| `FabricatorChallengers.UncontestedCandidates` | src/synode/fabricator/council.py:344-366 | without a contested response a required challenge names the first selected experts up to the cap, any other none |
| `FabricatorChallengers.ChallengersAre` | src/synode/fabricator/council.py:238-247 | the dispatched experts are the candidates as named, or the first selected ones when there are none |
| `FabricatorChallengers.DedupeInOrder` | src/synode/fabricator/council.py:588-596 | deduplication keeps first appearances in their order |
| `FabricatorTheorems.CompletedPassedMilestones` | src/synode/fabricator/lifecycle.py:31-47 | every completed run passed, in this order, validation of every selected expert's response, synthesis, a decision with every trace item resolved and mentioned, and a finalisation without review blockers; unguarded commands included |
| `FabricatorTheorems.StepMoves` | src/synode/fabricator/lifecycle.py:83-92 | what each command may do to the status and what it must have seen |
| `FabricatorTheorems.TerminalOverwrittenIff` | src/synode/fabricator/fabricator.py:333-358 | a terminal status is overwritten exactly by `render-prompts`, and by a raw challenge rendering whose own checks pass |
| `FabricatorTheorems.ChallengeRendersIff` | src/synode/fabricator/fabricator.py:361-440 | those checks in full: experts known and selected, their distinct number within the cap, a brief, no round; and what is recorded |
| `FabricatorTheorems.TerminalStays` | src/synode/fabricator/lifecycle.py:83-92 | so terminal statuses stay over any sequence of guarded commands |
| `FabricatorTheorems.OneChallengeRound` | src/synode/fabricator/fabricator.py:391-433 | at most one challenge round is recorded in any run |
| `FabricatorTheorems.AlwaysDispatched` | src/synode/fabricator/lifecycle.py:240-255 | whoever a phase waits for has an agent record, in every reachable state |
| `FabricatorTheorems.ValidateIff` | src/synode/fabricator/council.py:68-115 | in every reachable state, collecting a phase succeeds exactly when the status allows it and every expected response is present and valid |
| `FabricatorTheorems.ValidateFrame` | src/synode/fabricator/council.py:68-115 | a collection, complete or not, touches only the phase's listed agents, their failures and the collection results |
| `FabricatorTheorems.ValidateSettles` | src/synode/fabricator/lifecycle.py:163-187 | a successful collection finishes every listed agent and clears its settled failures |
| `FabricatorTheorems.CapKept` | src/synode/fabricator/resource_guard.py:49-82 | every single write of every command keeps the number of started agents within the policy |
| `FabricatorHistory.ActiveWithinLastStartCap` | src/synode/fabricator/resource_guard.py:49-116 | however the policy changes over a run, no more agents are started than the cap met by the last successful start; across dispatch, start, completion, failure, validation and restart |
| `FabricatorTheorems.AgentStartedIff` | src/synode/fabricator/fabricator.py:524-531 | an agent starts exactly in its phase, when dispatched, with memory and within the cap counted without itself |
| `FabricatorTheorems.AgentCompletedSettles` | src/synode/fabricator/lifecycle.py:163-187 | completion settles that agent and leaves everyone else's record and failures alone |
| `FabricatorTheorems.AgentFailedRecords` | src/synode/fabricator/lifecycle.py:190-210 | failing marks the record and records the failure, nothing else |
| `FabricatorTheorems.AgentFailureBlocksGuide` | src/synode/fabricator/lifecycle.py:385-406 | a recorded agent failure is never cleared by any later command, so the guide never proposes anything again |
| `FabricatorFailures.SettledIff` | src/synode/fabricator/lifecycle.py:385-406 | in every reachable run a recorded failure can still be settled by some continuation exactly when it is not an agent's own failure and its phase's window is open |
| `FabricatorFailures.WindowsCloseForGood` | src/synode/fabricator/lifecycle.py:31-47 | a phase's window opens once; once left it is never entered again, by any command |
| `FabricatorFailures.AlwaysAccounted` | src/synode/fabricator/lifecycle.py:357-382 | in every reachable run each recorded failure belongs to a registered agent, and each agent to a phase already dispatched |
| `FabricatorTheorems.GuideIsAllowed` | src/synode/fabricator/lifecycle.py:258-354 | every command the guide proposes is accepted by the guard in that state |
| `FabricatorTheorems.AdvanceRaisesRank` | src/synode/fabricator/advance.py:21-58 | a successful advance strictly raises a rank on statuses, no advance lowers it |
| `FabricatorTheorems.AdvanceBounded` | src/synode/fabricator/advance.py:9-58 | over any number of calls and environments at most fourteen advance the run |
| `FabricatorTheorems.ChallengeRequiredIff` | src/synode/fabricator/council.py:328-367 | a challenge is required by an automatic policy, or by a conditional one when some valid response blocks, challenges or is uncertain |
| `FabricatorTheorems.CandidatesWithinCap` | src/synode/fabricator/council.py:328-367 | the named candidates are selected experts within the cap, and there is one when a challenge can be held |
| `FabricatorTheorems.ChallengeDispatchIff` | src/synode/fabricator/fabricator.py:471-482 | succeeds exactly when the run awaits a required challenge with experts, cap, brief, known candidates and no round yet, and resources allow; fails and still changes the run exactly when only resources are missing |
| `FabricatorTheorems.ChallengeDispatchRegisters` | src/synode/fabricator/council.py:250-267 | on success one non-empty round of selected experts within the cap, each with a fresh record |
| `FabricatorTheorems.DecisionReadyIff` | src/synode/fabricator/fabricator.py:555-562 | the decision is accepted exactly when evidence is ready, every trace item is resolved and mentioned, and the status is one of two |
| `FabricatorTheorems.RequiredChallengeCanBeSkipped` | src/synode/fabricator/lifecycle.py:31-47 | so a required challenge can be skipped |
| `FabricatorChallenge.ChallengeSkippedIff` | src/synode/fabricator/fabricator.py:555-562 | over every run: an accepted decision taken from `challenge-collected` is exactly one that rests on validation, synthesis and a full answer of the recorded round, in this order; one taken from `synthesis-ready` is exactly one with no challenge collected before it |
| `FabricatorChallenge.RoundKept` | src/synode/fabricator/fabricator.py:391-433 | a recorded round never changes again |
| `FabricatorChallenge.CompletedDecision` | src/synode/fabricator/fabricator.py:612-632 | every completed run has an accepted decision of one of these two kinds |
| `FabricatorTheorems.StrandedStays` | src/synode/fabricator/lifecycle.py:31-47 | from there guarded commands lead only to blocked or cancelled |
| `LockProtocol.InterleavingIsSerial` | src/synode/fabricator/lifecycle.py:62-80 | under every interleaving of turns and kills the file is the serial result of the finished sections plus a prefix of the holder's writes, and every finished process reports what it reports in that serial order |
| `LockProtocol.MutualExclusion` | src/synode/fabricator/lifecycle.py:62-80 | no two processes are ever inside their sections together |
| `LockProtocol.LockIsStaleIff` | src/synode/fabricator/lifecycle.py:62-80 | in every reachable state with the lock taken: some continuation frees it exactly when its holder was not killed, and otherwise file, lock and finished sections never change again |
| `LockProtocol.HolderFinishes` | src/synode/fabricator/lifecycle.py:62-80 | a live holder frees the lock by its own turns |
| `LockProtocol.TryingRuns` | src/synode/fabricator/lifecycle.py:62-80 | a process that finds the lock free runs its whole section on the file as it is, by its own turns; one that finds it taken gives up and changes nothing else |
| `LockProtocol.HolderCompletes` | src/synode/fabricator/lifecycle.py:62-80 | a live holder makes the rest of its writes and reports |
| `FabricatorLock.ConcurrentRunIsSerial` | src/synode/fabricator/fabricator.py:443-569 | concurrent Fabricator commands equal a serial run of the finished ones; none of their updates is lost |
| `FabricatorLock.WritesKeepOneRound` | src/synode/fabricator/fabricator.py:391-433 | no write of any command, intermediate ones included, holds a second challenge round |
| `FabricatorLock.SharedFileInvariants` | src/synode/fabricator/fabricator.py:391-433 | at every moment of every interleaving the shared file has at most one round and no more started agents than the policy |
| `FabricatorLock.SharedWriteFollows` | src/synode/fabricator/fabricator.py:443-632 | under every interleaving each single change of the shared file follows the status graph |
| `FabricatorHistory.WritesChained` | src/synode/fabricator/lifecycle.py:16-47 | every write of every command, intermediate ones included, follows the status graph, keeps the plan of the run and records at most the one round |
| `FabricatorHistory.RecordStep` | src/synode/fabricator/lifecycle.py:62-80 | the record of a run directory: its log starts fresh, follows the graph and ends with what the commands in its history make of it, everyone awaited is dispatched, started agents fit the last cap; every finished command extends it |
| `FindingClusters.NumberItems` | src/synode/fabricator/synthesis.py:240-276 | items numbered per kind in order |
| `FindingClusters.SourceItemsForResponse` | src/synode/fabricator/synthesis.py:240-276 | the items of one response |
| `FindingClusters.ResponseSourceItems` | src/synode/fabricator/synthesis.py:233-237 | the items of all responses, in order |
| `FindingClusters.ItemIdInjective` | src/synode/fabricator/synthesis.py:240-276 | an item id determines phase, expert, kind and number, whatever characters the expert's name has |
| `FindingClusters.AllIdsDistinct` | src/synode/fabricator/synthesis.py:233-237 | when no expert answers a phase twice, all item ids of the report are distinct |
| `FindingClusters.RawItemsComplete` | src/synode/fabricator/synthesis.py:240-276 | the items of each kind are exactly that field of the response, in order |
| `FindingClusters.ItemsCarryFields` | src/synode/fabricator/synthesis.py:240-276 | the item numbered n of a kind carries the n-th text of its field, and there are as many items as texts |
| `FindingClusters.FindingClustersFromSourceItems` | src/synode/fabricator/synthesis.py:279-328 | one finished cluster per topic, sorted by falling severity then id |
| `FindingClusters.ClusterFaithful` | src/synode/fabricator/synthesis.py:279-328 | a cluster holds exactly its topic's items, counts them, and has the greatest of their severities |
| `FindingClusters.ClustersPartition` | src/synode/fabricator/synthesis.py:279-328 | every item lies in exactly one cluster, the counts sum to the number of items, the list is in report order |
| `FindingClusters.BlockerClusterIff` | src/synode/fabricator/synthesis.py:346-351 | a cluster is a blocker exactly when it holds a blocker finding or a blocking verdict |
| `FindingReports.ItemFields` | src/synode/fabricator/synthesis.py:240-276 | every item names its response, is classified by text and kind, blocks exactly as a blocker or Block verdict, and is advisory exactly as an advisory |
| `FindingReports.VerdictItemIff` | src/synode/fabricator/synthesis.py:243-250 | a response has a verdict item exactly when it does not proceed, the first, blocking exactly for Block |
| `FindingReports.RawItemsInOrder` | src/synode/fabricator/synthesis.py:240-276 | items come kind by kind in the given order |
| `FindingReports.ItemIdFormat` | src/synode/fabricator/synthesis.py:240-276 | how ids are written |
| `FindingReports.ItemPosition` | src/synode/fabricator/synthesis.py:279-328 | a cluster lists its items in their order |
| `FindingReports.ClusterExperts` | src/synode/fabricator/synthesis.py:279-328 | a cluster's experts are those of its items, each once |
| `FindingReports.ClusterSeverity` | src/synode/fabricator/synthesis.py:279-328 | a cluster blocks when an item does, else asks for a revision when one does, else is advisory |
| `FindingReports.ReportOrder` | src/synode/fabricator/synthesis.py:318-328 | blocking clusters first, then revisions, then advisories, equally severe ones by id |
| `NodeNames.FreshName` | migrations/versions/0008_graph_v2_node_contracts.py:158-162 | the first free candidate of a base name; the search ends because each refused candidate is another used name |
| `NodeNames.NodesForRoles` | migrations/versions/0008_graph_v2_node_contracts.py:149-166 | one node per listed role with the first free name, ids pairwise distinct, and a map from exactly the listed roles to their nodes |
| `NodeNames.RoleMapInjective` | migrations/versions/0008_graph_v2_node_contracts.py:149-166 | no two roles share a node |
| `NodeNames.CandidateInjective` | migrations/versions/0008_graph_v2_node_contracts.py:158-162 | different suffixes give different names |
| `NodeNames.ThreeAlike` | migrations/versions/0008_graph_v2_node_contracts.py:156-163 | with one base name the second role gets suffix 2 and the third suffix 3 |
| `Strings.NumeralIs` | migrations/versions/0008_graph_v2_node_contracts.py:160 | a suffix is written in decimal digits without a leading zero |
| `TokenMetrics.SumTokenUsage` | src/synode/application/orchestration.py:2128-2151 | each field of the total is the sum of what was reported; all unknown when nothing was |
| `TokenMetrics.ProviderUsage` | src/synode/application/orchestration.py:1645-1653 | one record per provider that had an event, with the sums of its own events |
| `TokenMetrics.UsageConserved` | src/synode/application/orchestration.py:1645-1653 | over any listing of the providers their sums add up to the run's sum |
| `TokenMetrics.RecordsAddUpToTotal` | src/synode/application/orchestration.py:1645-1653 | the provider records add up, field by field, to the reported total |

## Left out

- Regular expressions, `ast.parse` and wording heuristics: the Python syntax, accumulator and refund checks, operator-question wording, required symbols and verification commands are arbitrary functions or answers; the function blocks of a file are an arbitrary list.
- Line ends other than `\n` and `\r\n`, and Unicode: text is a sequence of characters, `\n` alone ends a line in `splitlines`, and there is no normalisation or encoding.
- Models, tools, sandbox, database, events and artifacts: replaced by oracles; an executed call is assumed to return a result under its own name.
- Inside the supervisor, the worker roles and external backends: a supervisor step only fixes plan-only, a worker step yields arbitrary results.
- Prompt building, context trimming, Markdown, `status`, and the report texts: string building.
- `traceability_items_for_response` and the Arbiter documents: a decision sees an arbitrary list of items, each resolved or not and mentioned or not.
- Order and multiplicity of recorded failures, the stored `current_phase`, `allowed_next_commands` and `resource_checks` history, timestamps: failures are a set, deadlines and memory are yes-or-no answers, the rest is not kept.
- The policy file and environment variables behind the agent cap: each command meets an arbitrary cap.
- FabricatorRun.RunDirectory.constructor: expert selection, configuration validation and the refusal of an existing directory are not part of it; a directory starts with any run `start_run` can write.
- Files other than `run.json` and the lock file: response files, briefs and evidence are inputs of each command and may change arbitrarily between commands.
- FabricatorLock.ConcurrentRunIsSerial: what a command finds outside `run.json` is fixed per command instead of being re-read at each step of its section.
- The run queue, worker claims, cancellation and recovery, and whether `set_run_status` accepts a status: `repository.py` and `queue.py` are not part of this model.
- A migrated node's `kind`: one test on its name.
- `required_patch_targets`, `extract_required_patch_symbols`, `dedupe_file_patches`, `parse_verification_failures`: single passes over lists with no property beyond their bodies.

/** When the guide speaks, when each command succeeds, and what it records. */
module FabricatorCommands {
  import opened Options
  import opened FabricatorModel
  import opened FabricatorTheorems

  // ----- the guide -----

  /** No failure and no review blocker is on record. */
  predicate Quiet(r: Run) {
    r.failures == {} && r.reviewBlockers == []
  }

  /** The guide in full: silent unless the run is quiet, and then one command per status. */
  lemma GuideIff(r: Run)
    ensures var next := NextCommand(r);
      && (next == Some(DispatchExperts) <==> Quiet(r) && r.status == Started && (r.navRequired ==> r.navReady))
      && (next == Some(ValidateResponses(Expert)) <==> Quiet(r) && r.status == ExpertAgentsStarted)
      && (next == Some(Synthesize) <==> Quiet(r) && r.status == ExpertCollected)
      && (next == Some(DispatchChallenge) <==> Quiet(r) && r.status == SynthesisReady && r.challengeRequired)
      && (next == Some(ValidateResponses(Challenge)) <==> Quiet(r) && r.status == ChallengeAgentsStarted)
      && (next == Some(DispatchReview) <==> Quiet(r) && r.status == ImplementationReady)
      && (next == Some(ValidateResponses(Review)) <==> Quiet(r) && r.status == ReviewAgentStarted)
      && (next == Some(Finalize(ReadyForHumanReview)) <==>
            Quiet(r) && ((r.status == DecisionReady && r.mode == PlanOnly) || r.status == ReviewCollected))
      && (next.Some? ==> next.value in {DispatchExperts, ValidateResponses(Expert), Synthesize, DispatchChallenge,
                                        ValidateResponses(Challenge), DispatchReview, ValidateResponses(Review),
                                        Finalize(ReadyForHumanReview)})
  {
  }

  /** `advance` advances exactly when the refreshed guide proposes a command that succeeds. */
  lemma AdvancesIff(r: Run, before: Env, during: Env, after: Env)
    ensures var r1 := Perform(r, Step(NextStep, before));
      Advance(r, before, during, after).advanced <==>
        NextCommand(r1).Some? && EffectOf(NextCommand(r1).value, during, r1).ok
  {
  }

  // ----- when a command succeeds -----

  /** No more agents are started than the cap, and memory suffices. */
  ghost predicate HasResources(r: Run, env: Env) {
    |set key | key in r.agents && r.agents[key] == Active| <= env.maxActive && env.memoryOk
  }

  lemma ExpertDispatchIff(r: Run, env: Env)
    ensures var e := EffectOf(DispatchExperts, env, r);
      && (e.ok <==> r.status == Started && (r.navRequired ==> env.navEvidence) && HasResources(r, env)
                    && r.experts != [] && forall x :: x in r.experts ==> x in env.knownExperts)
      && (e.ok ==> After(r, e) == r.(navReady := true, agents := Register(r.agents, Expert, r.experts),
                                     status := ExpertDispatchReady))
      && (!e.ok ==> e == REFUSED)
  {
  }

  /** The reviewer is the red team reviewer if selected, else the test strategist, else the first selected expert. */
  predicate IsReviewer(experts: seq<Id>, id: Id) {
    if "red_team_reviewer" in experts then id == "red_team_reviewer"
    else if "qa_test_strategist" in experts then id == "qa_test_strategist"
    else experts != [] && id == experts[0]
  }

  lemma ReviewDispatchIff(r: Run, env: Env)
    ensures var e := EffectOf(DispatchReview, env, r);
      && (e.ok <==> r.status in {DecisionReady, ImplementationReady} && HasResources(r, env)
                    && exists id :: IsReviewer(r.experts, id) && id in env.knownExperts)
      && (e.ok ==> |After(r, e).reviewers| == 1 && IsReviewer(r.experts, After(r, e).reviewers[0])
                   && After(r, e).status == ReviewDispatchReady)
      && (!e.ok ==> e == REFUSED)
  {
    if r.experts != [] {
      var reviewer := ChooseReviewer(r.experts).value;
      assert IsReviewer(r.experts, reviewer) && forall id :: IsReviewer(r.experts, id) ==> id == reviewer;
    }
  }

  lemma SynthesizeIff(r: Run, env: Env)
    ensures EffectOf(Synthesize, env, r).ok <==>
      r.status == ExpertCollected && forall x :: x in r.experts ==> ResponseOf(env, Expert, x).Some?
  {
    assert forall x :: ResponseOf(env, Expert, x).Some? <==> env.files(Expert, x).json.Good?;
  }

  lemma ImplementationReadyIff(r: Run, env: Env)
    ensures var e := EffectOf(MarkImplementationReady, env, r);
      && (e.ok <==> r.status == DecisionReady)
      && After(r, e) == if e.ok then r.(status := ImplementationReady) else r
  {
  }

  /** Finalising: which result needs what, and which status it gives. */
  lemma FinalizeIff(r: Run, env: Env, result: Result)
    ensures var e := EffectOf(Finalize(result), env, r);
      && (e.ok <==> if result == ReadyForHumanReview
                    then r.status in {DecisionReady, ImplementationReady, ReviewCollected} && r.reviewBlockers == []
                    else r.status != Completed && r.status != Blocked && r.status != Cancelled)
      && (e.ok && result == ReadyForHumanReview ==> After(r, e) == r.(status := Completed))
      && (e.ok && result == ResultBlocked ==> After(r, e) == r.(status := Blocked))
      && (e.ok && result == ResultCancelled ==> After(r, e) == r.(status := Cancelled))
      && (!e.ok ==> After(r, e) == r)
  {
  }

  /** Completing an agent needs the markdown and some JSON file, valid or not; a missing one is recorded. */
  lemma AgentCompletedIff(r: Run, env: Env, phase: Phase, expert: Id)
    ensures var e := EffectOf(AgentCompleted(phase, expert), env, r); var file := env.files(phase, expert);
      && (e.ok <==> AgentEventAllowed(r, phase, expert) && file.markdown && file.json != Absent)
      && (!e.ok && AgentEventAllowed(r, phase, expert) ==>
            After(r, e) == r.(failures := r.failures + {Failure(phase, expert, MissingResponse)}))
      && (!AgentEventAllowed(r, phase, expert) ==> e == REFUSED)
  {
  }

  /** Whose events are accepted: a registered agent's, while its phase's window is open. */
  lemma AgentEventIff(r: Run, phase: Phase, expert: Id)
    ensures AgentEventAllowed(r, phase, expert) <==> r.status in PhaseAllowed(phase) && (phase, expert) in r.agents
  {
    WaitsForAllowed(r.status, phase);
  }

  /** The reading commands add exactly the failures of overdue agents that are neither finished nor failed. */
  lemma OverdueIff(r: Run, env: Env, cmd: Command, f: Failure)
    requires cmd == NextStep || cmd == Summary || cmd == AgentTimeouts
    ensures f in Perform(r, Step(cmd, env)).failures <==>
      || f in r.failures
      || (f.kind == OverdueAgent && (f.phase, f.expert) in r.agents
          && r.agents[(f.phase, f.expert)] in {Expected, Active} && env.overdue(f.phase, f.expert))
  {
    var key := (f.phase, f.expert);
    if key in r.agents {
      Unsettled(r.agents[key]);
    }
  }

  lemma Unsettled(status: AgentStatus)
    ensures status !in {Finished, Failed} <==> status in {Expected, Active}
  {
    match status
    case Expected =>
    case Active =>
    case Finished =>
    case Failed =>
  }

  // ----- what a command leaves alone -----

  /** The parts of a run that a command may change. */
  datatype Part = NavPart | ChallengePart | RoundPart | AgentPart | FailurePart | SynthesisPart | ReviewerPart
                | TracePart | BlockerPart

  function Touches(cmd: Command): set<Part> {
    match cmd
    case RenderPrompts => {}
    case RenderChallengePrompts(_) => {RoundPart, ChallengePart}
    case DispatchExperts => {NavPart, AgentPart}
    case ValidateResponses(Review) => {AgentPart, FailurePart, BlockerPart}
    case ValidateResponses(_) => {AgentPart, FailurePart}
    case Synthesize => {SynthesisPart, ChallengePart}
    case DispatchChallenge => {RoundPart, ChallengePart, AgentPart}
    case TraceDecision => {TracePart}
    case MarkDecisionReady => {NavPart, TracePart}
    case MarkImplementationReady => {}
    case DispatchReview => {ReviewerPart, AgentPart}
    case AgentStarted(_, _) => {AgentPart}
    case AgentCompleted(_, _) => {AgentPart, FailurePart}
    case AgentFailed(_, _) => {AgentPart, FailurePart}
    case AgentTimeouts => {FailurePart}
    case NextStep => {NavPart, FailurePart}
    case Summary => {NavPart, FailurePart}
    case Finalize(_) => {}
  }

  /** Everything but the given parts and the status is the same. */
  ghost predicate SameOutside(r: Run, r': Run, parts: set<Part>) {
    && r'.mode == r.mode && r'.policy == r.policy && r'.experts == r.experts
    && r'.maxChallenge == r.maxChallenge && r'.navRequired == r.navRequired
    && (NavPart !in parts ==> r'.navReady == r.navReady)
    && (ChallengePart !in parts ==> r'.challengeRequired == r.challengeRequired)
    && (RoundPart !in parts ==> r'.rounds == r.rounds)
    && (AgentPart !in parts ==> r'.agents == r.agents)
    && (FailurePart !in parts ==> r'.failures == r.failures)
    && (SynthesisPart !in parts ==> r'.synthesis == r.synthesis)
    && (ReviewerPart !in parts ==> r'.reviewers == r.reviewers)
    && (TracePart !in parts ==> r'.traceability == r.traceability)
    && (BlockerPart !in parts ==> r'.reviewBlockers == r.reviewBlockers)
  }

  lemma ExpertDispatchFrame(r: Run, env: Env)
    ensures SameOutside(r, After(r, DispatchExpertsEffect(r, env)), Touches(DispatchExperts))
  {
  }

  lemma ReviewDispatchFrame(r: Run, env: Env)
    ensures SameOutside(r, After(r, DispatchReviewEffect(r, env)), Touches(DispatchReview))
  {
  }

  lemma SynthesisFrame(r: Run, env: Env)
    ensures SameOutside(r, After(r, SynthesizeEffect(r, env)), Touches(Synthesize))
  {
  }

  lemma ChallengeFrame(r: Run, env: Env)
    ensures SameOutside(r, Perform(r, Step(DispatchChallenge, env)), Touches(DispatchChallenge))
  {
    if Renderable(r, env) {
      RenderedDispatch(r, env);
      RendersSelectedIff(r, env);
      ChallengeRendersIff(r, env, SelectChallengeExperts(r));
    } else {
      UnrenderedDispatch(r, env);
    }
  }

  lemma DecisionFrame(r: Run, env: Env)
    ensures SameOutside(r, After(r, DecisionEffect(r, env)), Touches(MarkDecisionReady))
  {
  }

  lemma StartFrame(r: Run, env: Env, phase: Phase, expert: Id)
    ensures SameOutside(r, After(r, AgentStartedEffect(r, env, phase, expert)), Touches(AgentStarted(phase, expert)))
  {
  }

  lemma CompletionFrame(r: Run, env: Env, phase: Phase, expert: Id)
    ensures SameOutside(r, After(r, AgentCompletedEffect(r, env, phase, expert)), {AgentPart, FailurePart})
  {
  }

  lemma FailedFrame(r: Run, phase: Phase, expert: Id)
    ensures SameOutside(r, After(r, AgentFailedEffect(r, phase, expert)), Touches(AgentFailed(phase, expert)))
  {
  }

  lemma RefreshFrame(r: Run, navReady: bool, failures: set<Failure>, always: bool)
    ensures SameOutside(r, After(r, RefreshEffect(r, r.(navReady := navReady, failures := failures), always)),
                        {NavPart, FailurePart})
    ensures navReady == r.navReady ==>
      SameOutside(r, After(r, RefreshEffect(r, r.(navReady := navReady, failures := failures), always)), {FailurePart})
  {
  }

  lemma FinalizeFrame(r: Run, result: Result)
    ensures SameOutside(r, After(r, FinalizeEffect(r, result)), {})
  {
  }

  lemma {:induction false} CollectionFrame(r: Run, env: Env, phase: Phase, ids: seq<Id>, k: nat)
    requires k <= |ids|
    ensures SameOutside(r, After(r, ValidateFrom(r, env, phase, ids, k)), Touches(ValidateResponses(phase)))
    decreases |ids| - k
  {
    if k < |ids| {
      if Accepts(r, env, phase, ids[k]) {
        AcceptedStep(r, env, phase, ids, k);
        CollectionFrame(MarkCompleted(r, phase, ids[k]), env, phase, ids, k + 1);
      } else {
        RejectedStep(r, env, phase, ids, k);
      }
    }
  }

  lemma ValidationFrame(r: Run, env: Env, phase: Phase)
    ensures SameOutside(r, After(r, ValidateEffect(r, env, phase)), Touches(ValidateResponses(phase)))
  {
    CollectionFrame(r, env, phase, ExpectedIds(r, phase), 0);
  }

  lemma AgentCommandFrame(r: Run, step: Step)
    requires step.cmd.AgentStarted? || step.cmd.AgentCompleted? || step.cmd.AgentFailed? || step.cmd.AgentTimeouts?
             || step.cmd.NextStep? || step.cmd.Summary?
    ensures SameOutside(r, Perform(r, step), Touches(step.cmd))
  {
    match step.cmd
    case AgentStarted(phase, expert) => StartFrame(r, step.env, phase, expert);
    case AgentCompleted(phase, expert) => CompletionFrame(r, step.env, phase, expert);
    case AgentFailed(phase, expert) => FailedFrame(r, phase, expert);
    case AgentTimeouts => RefreshFrame(r, r.navReady, CollectFailures(r, step.env), false);
    case NextStep => RefreshFrame(r, NavReady(r, step.env), CollectFailures(r, step.env), true);
    case Summary => RefreshFrame(r, NavReady(r, step.env), CollectFailures(r, step.env), false);
  }

  lemma DispatchCommandFrame(r: Run, step: Step)
    requires step.cmd.DispatchExperts? || step.cmd.DispatchChallenge? || step.cmd.DispatchReview?
             || step.cmd.ValidateResponses? || step.cmd.RenderChallengePrompts?
    ensures SameOutside(r, Perform(r, step), Touches(step.cmd))
  {
    match step.cmd
    case RenderChallengePrompts(ids) => ChallengeRendersIff(r, step.env, ids);
    case DispatchExperts => ExpertDispatchFrame(r, step.env);
    case ValidateResponses(phase) => ValidationFrame(r, step.env, phase);
    case DispatchChallenge => ChallengeFrame(r, step.env);
    case DispatchReview => ReviewDispatchFrame(r, step.env);
  }

  /** Every command changes only its own parts of the run, apart from the status. */
  lemma StepFrame(r: Run, step: Step)
    ensures SameOutside(r, Perform(r, step), Touches(step.cmd))
  {
    match step.cmd
    case RenderPrompts =>
    case Synthesize => SynthesisFrame(r, step.env);
    case TraceDecision =>
    case MarkDecisionReady => DecisionFrame(r, step.env);
    case MarkImplementationReady =>
    case Finalize(result) => FinalizeFrame(r, result);
    case RenderChallengePrompts(_) => DispatchCommandFrame(r, step);
    case DispatchExperts => DispatchCommandFrame(r, step);
    case ValidateResponses(_) => DispatchCommandFrame(r, step);
    case DispatchChallenge => DispatchCommandFrame(r, step);
    case DispatchReview => DispatchCommandFrame(r, step);
    case _ => AgentCommandFrame(r, step);
  }

  // ----- navigation evidence -----

  /** The stored readiness of the navigation evidence: read again by every `next-step`, by a summary that writes, and
      set by a decision that gets past it. */
  lemma EvidenceRead(r: Run, env: Env)
    ensures Perform(r, Step(NextStep, env)).navReady <==> (r.navRequired ==> env.navEvidence)
    ensures var r' := Perform(r, Step(Summary, env));
      if r'.failures == r.failures then r'.navReady == r.navReady
      else (r'.navReady <==> (r.navRequired ==> env.navEvidence))
    ensures env.traceReadable && (r.navRequired ==> env.navEvidence) ==>
      Perform(r, Step(MarkDecisionReady, env)).navReady
    ensures r.navRequired && !env.navEvidence ==> EffectOf(MarkDecisionReady, env, r) == REFUSED
  {
  }

  /** What an advance returns is refreshed once more when a command ran: overdue agents are on record as of then. */
  lemma AdvanceRefreshes(r: Run, before: Env, during: Env, after: Env, key: (Phase, Id))
    requires Advance(r, before, during, after).advanced
    ensures var r' := Advance(r, before, during, after).run;
      && (r'.navReady <==> (r'.navRequired ==> after.navEvidence))
      && (key in r'.agents && r'.agents[key] in {Expected, Active} && after.overdue(key.0, key.1) ==>
            Failure(key.0, key.1, OverdueAgent) in r'.failures)
  {
  }

  // ----- the traceability report -----

  lemma {:induction false} UnresolvedIs(items: seq<TraceItem>, id: Id)
    ensures id in Unresolved(items) <==> exists k :: 0 <= k < |items| && items[k].id == id && !items[k].resolved
  {
    if items != [] {
      UnresolvedIs(items[1..], id);
      assert forall k :: 0 < k < |items| ==> items[k] == items[1..][k - 1];
      assert forall k :: 0 <= k < |items| - 1 ==> items[1..][k] == items[k + 1];
    }
  }

  lemma {:induction false} UnreferencedIs(items: seq<TraceItem>, id: Id)
    ensures id in Unreferenced(items) <==>
      exists k :: 0 <= k < |items| && items[k].id == id && items[k].resolved && !items[k].referenced
  {
    if items != [] {
      UnreferencedIs(items[1..], id);
      assert forall k :: 0 < k < |items| ==> items[k] == items[1..][k - 1];
      assert forall k :: 0 <= k < |items| - 1 ==> items[1..][k] == items[k + 1];
    }
  }

  /** The stored report names exactly the unresolved items, and the resolved ones no Arbiter document mentions. */
  lemma ReportIs(r: Run, env: Env, id: Id)
    requires env.traceReadable
    ensures var report := Perform(r, Step(TraceDecision, env)).traceability;
      && report.Some?
      && (id in report.value.unresolved <==>
            exists k :: 0 <= k < |env.items| && env.items[k].id == id && !env.items[k].resolved)
      && (id in report.value.unreferenced <==>
            exists k :: 0 <= k < |env.items| && env.items[k].id == id
              && env.items[k].resolved && !env.items[k].referenced)
  {
    UnresolvedIs(env.items, id);
    UnreferencedIs(env.items, id);
  }

  // ----- a refused collection -----

  /** The k-th expected response is the first that is not complete and valid. */
  ghost predicate FirstBad(env: Env, phase: Phase, ids: seq<Id>, k: nat) {
    && k < |ids|
    && (forall j :: 0 <= j < k ==> env.files(phase, ids[j]).markdown && env.files(phase, ids[j]).json.Good?)
    && !(env.files(phase, ids[k]).markdown && env.files(phase, ids[k]).json.Good?)
  }

  /** What is wrong with it: missing when a file is absent, invalid otherwise. */
  function BadKind(file: ResponseFile): FailureKind {
    if !file.markdown || file.json == Absent then MissingResponse else InvalidResponse
  }

  /** A collection that stops records exactly the first bad response, and settles everyone before it. */
  lemma {:induction false} StopsAtFirstBad(r: Run, env: Env, phase: Phase, ids: seq<Id>, i: nat, k: nat)
    requires i <= k && FirstBad(env, phase, ids, k)
    requires r.status in PhaseAllowed(phase) && AllRegistered(r.agents, phase, ids, i)
    ensures var e := ValidateFrom(r, env, phase, ids, i);
      && !e.ok && Failure(phase, ids[k], BadKind(env.files(phase, ids[k]))) in After(r, e).failures
    decreases k - i
  {
    if i < k {
      var done := MarkCompleted(r, phase, ids[i]);
      WaitsForAllowed(r.status, phase);
      AllRegisteredKeys(r.agents, done.agents, phase, ids, i + 1);
      StopsAtFirstBad(done, env, phase, ids, i + 1, k);
      AcceptedStep(r, env, phase, ids, i);
    }
  }

  lemma FindFirstBad(env: Env, phase: Phase, ids: seq<Id>, i: nat) returns (k: nat)
    requires i <= |ids| && !AllGood(env, phase, ids, i)
    requires forall j :: 0 <= j < i ==> env.files(phase, ids[j]).markdown && env.files(phase, ids[j]).json.Good?
    ensures FirstBad(env, phase, ids, k)
    decreases |ids| - i
  {
    NextGood(env, phase, ids, i);
    if env.files(phase, ids[i]).markdown && env.files(phase, ids[i]).json.Good? {
      k := FindFirstBad(env, phase, ids, i + 1);
    } else {
      k := i;
    }
  }

  /** In every reachable run: a collection refused while its window is open is due to a first bad response, and that
      one's failure is on record. */
  lemma RefusedCollection(r0: Run, steps: seq<Step>, phase: Phase, env: Env) returns (k: nat)
    requires Initial(r0) && Exec(r0, steps).status in PhaseAllowed(phase)
    requires !EffectOf(ValidateResponses(phase), env, Exec(r0, steps)).ok
    ensures var r := Exec(r0, steps); var ids := ExpectedIds(r, phase);
      && FirstBad(env, phase, ids, k)
      && Failure(phase, ids[k], BadKind(env.files(phase, ids[k])))
         in Perform(r, Step(ValidateResponses(phase), env)).failures
  {
    var r := Exec(r0, steps);
    AlwaysDispatched(r0, steps);
    DispatchedExpected(r, phase);
    ValidateIff(r0, steps, phase, env);
    k := FindFirstBad(env, phase, ExpectedIds(r, phase), 0);
    StopsAtFirstBad(r, env, phase, ExpectedIds(r, phase), 0, k);
  }
}

/** Which recorded failures a run can still get rid of. */
module FabricatorFailures {
  import opened Options
  import opened FabricatorModel
  import opened FabricatorTheorems

  /** Statuses with the dispatch of the phase still ahead. */
  function Ahead(phase: Phase): set<Status> {
    match phase
    case Expert => {Started}
    case Challenge => {Started, ExpertDispatchReady, ExpertAgentsStarted, ExpertCollected, SynthesisReady}
    case Review =>
      {Started, ExpertDispatchReady, ExpertAgentsStarted, ExpertCollected, SynthesisReady, ChallengeDispatchReady,
       ChallengeAgentsStarted, ChallengeCollected, DecisionReady, ImplementationReady}
  }

  /** A phase is dispatched once, and once its window is left it is not entered again. */
  lemma WindowsCloseForGood(r: Run, cmd: Command, env: Env, r': Run, ok: bool, phase: Phase)
    requires Moves(r, cmd, env, r', ok)
    ensures r.status !in Ahead(phase) ==> r'.status !in Ahead(phase)
    ensures r.status !in Ahead(phase) && r.status !in PhaseAllowed(phase) ==> r'.status !in PhaseAllowed(phase)
  {
  }

  lemma StepKeepsWindowClosed(r: Run, step: Step, phase: Phase)
    ensures var r' := Perform(r, step);
      && (r.status !in Ahead(phase) ==> r'.status !in Ahead(phase))
      && (r.status !in Ahead(phase) && r.status !in PhaseAllowed(phase) ==> r'.status !in PhaseAllowed(phase))
  {
    StepMoves(r, step.cmd, step.env);
    WindowsCloseForGood(r, step.cmd, step.env, Perform(r, step), EffectOf(step.cmd, step.env, r).ok, phase);
  }

  /** Failures belong to registered agents, and agents to phases already dispatched. */
  ghost predicate Accounted(r: Run) {
    Entered(r) && forall f :: f in r.failures ==> (f.phase, f.expert) in r.agents
  }

  // ----- new records -----

  /** A step keeps every record, and a new one belongs to a phase whose window it has just opened. */
  ghost predicate RecordsGrow(r: Run, r': Run) {
    && r.agents.Keys <= r'.agents.Keys
    && forall key :: key in r'.agents && key !in r.agents ==> r'.status in PhaseAllowed(key.0)
  }

  lemma DispatchGrows(r: Run, env: Env, phase: Phase, ids: seq<Id>, status: Status)
    requires status in PhaseAllowed(phase)
    ensures RecordsGrow(r, After(r, DispatchEffect(r, env, phase, ids, status)))
  {
    RegisterRecords(r.agents, phase, ids);
  }

  lemma ChallengeGrows(r: Run, env: Env)
    ensures RecordsGrow(r, Perform(r, Step(DispatchChallenge, env)))
  {
    if Renderable(r, env) {
      RenderedDispatch(r, env);
      RendersSelectedIff(r, env);
      ChallengeRendersIff(r, env, SelectChallengeExperts(r));
      RegisterRecords(r.agents, Challenge, SelectChallengeExperts(r));
    } else {
      UnrenderedDispatch(r, env);
    }
  }

  lemma ExpertsGrow(r: Run, env: Env)
    ensures RecordsGrow(r, Perform(r, Step(DispatchExperts, env)))
  {
    DispatchGrows(r.(navReady := true), env, Expert, r.experts, ExpertDispatchReady);
  }

  lemma ReviewGrows(r: Run, env: Env)
    ensures RecordsGrow(r, Perform(r, Step(DispatchReview, env)))
  {
    if ChooseReviewer(r.experts).Some? {
      var reviewer := ChooseReviewer(r.experts).value;
      DispatchGrows(r.(reviewers := [reviewer]), env, Review, [reviewer], ReviewDispatchReady);
    }
  }

  lemma StartGrows(r: Run, env: Env, phase: Phase, expert: Id)
    ensures RecordsGrow(r, After(r, AgentStartedEffect(r, env, phase, expert)))
  {
  }

  lemma CompletionGrows(r: Run, env: Env, phase: Phase, expert: Id)
    ensures RecordsGrow(r, After(r, AgentCompletedEffect(r, env, phase, expert)))
  {
  }

  lemma FailureGrows(r: Run, phase: Phase, expert: Id)
    ensures RecordsGrow(r, After(r, AgentFailedEffect(r, phase, expert)))
  {
  }

  lemma StepGrows(r: Run, step: Step)
    ensures RecordsGrow(r, Perform(r, step))
  {
    match step.cmd
    case DispatchExperts => ExpertsGrow(r, step.env);
    case DispatchReview => ReviewGrows(r, step.env);
    case DispatchChallenge => ChallengeGrows(r, step.env);
    case ValidateResponses(phase) => ValidateFrame(r, step.env, phase, ExpectedIds(r, phase), 0);
    case AgentStarted(phase, expert) => StartGrows(r, step.env, phase, expert);
    case AgentCompleted(phase, expert) => CompletionGrows(r, step.env, phase, expert);
    case AgentFailed(phase, expert) => FailureGrows(r, phase, expert);
    case Synthesize => SynthesisFailures(r, step.env);
    case MarkDecisionReady => DecisionFailures(r, step.env);
    case Finalize(result) => FinalizeFailures(r, result);
    case _ =>
  }

  // ----- new failures -----

  /** A failure recorded by a step is one of a registered agent. */
  ghost predicate FailuresOfAgents(r: Run, r': Run) {
    forall f :: f in r'.failures && f !in r.failures ==> (f.phase, f.expert) in r.agents
  }

  lemma {:induction false} ValidateFailures(r: Run, env: Env, phase: Phase, ids: seq<Id>, k: nat)
    requires k <= |ids| && AllRegistered(r.agents, phase, ids, k)
    ensures FailuresOfAgents(r, After(r, ValidateFrom(r, env, phase, ids, k)))
    decreases |ids| - k
  {
    if k == |ids| {
      LastStep(r, env, phase, ids);
    } else if Accepts(r, env, phase, ids[k]) {
      var done := MarkCompleted(r, phase, ids[k]);
      AllRegisteredKeys(r.agents, done.agents, phase, ids, k + 1);
      ValidateFailures(done, env, phase, ids, k + 1);
      AcceptedStep(r, env, phase, ids, k);
    } else {
      RejectedStep(r, env, phase, ids, k);
    }
  }

  lemma ValidationFailures(r: Run, env: Env, phase: Phase)
    requires Dispatched(r)
    ensures FailuresOfAgents(r, Perform(r, Step(ValidateResponses(phase), env)))
  {
    if r.status in PhaseAllowed(phase) {
      DispatchedExpected(r, phase);
      ValidateFailures(r, env, phase, ExpectedIds(r, phase), 0);
    }
  }

  lemma CompletionFailures(r: Run, env: Env, phase: Phase, expert: Id)
    ensures FailuresOfAgents(r, After(r, AgentCompletedEffect(r, env, phase, expert)))
  {
  }

  lemma FailedFailures(r: Run, phase: Phase, expert: Id)
    ensures FailuresOfAgents(r, After(r, AgentFailedEffect(r, phase, expert)))
  {
  }

  lemma RefreshFailures(r: Run, env: Env, navReady: bool, always: bool)
    ensures var refreshed := r.(navReady := navReady, failures := CollectFailures(r, env));
      FailuresOfAgents(r, After(r, RefreshEffect(r, refreshed, always)))
  {
  }

  lemma DispatchFailures(r: Run, env: Env)
    ensures After(r, DispatchExpertsEffect(r, env)).failures == r.failures
    ensures After(r, DispatchReviewEffect(r, env)).failures == r.failures
  {
  }

  lemma StartFailures(r: Run, env: Env, phase: Phase, expert: Id)
    ensures After(r, AgentStartedEffect(r, env, phase, expert)).failures == r.failures
  {
  }

  lemma SynthesisFailures(r: Run, env: Env)
    ensures var r' := After(r, SynthesizeEffect(r, env)); r'.failures == r.failures && r'.agents == r.agents
  {
  }

  lemma DecisionFailures(r: Run, env: Env)
    ensures var r' := After(r, DecisionEffect(r, env)); r'.failures == r.failures && r'.agents == r.agents
  {
  }

  lemma FinalizeFailures(r: Run, result: Result)
    ensures var r' := After(r, FinalizeEffect(r, result)); r'.failures == r.failures && r'.agents == r.agents
  {
  }

  lemma StepFailures(r: Run, step: Step)
    requires Dispatched(r)
    ensures FailuresOfAgents(r, Perform(r, step))
  {
    match step.cmd
    case ValidateResponses(phase) => ValidationFailures(r, step.env, phase);
    case DispatchChallenge => ChallengeKeepsFailures(r, step.env);
    case AgentCompleted(phase, expert) => CompletionFailures(r, step.env, phase, expert);
    case AgentFailed(phase, expert) => FailedFailures(r, phase, expert);
    case AgentTimeouts => RefreshFailures(r, step.env, r.navReady, false);
    case NextStep => RefreshFailures(r, step.env, NavReady(r, step.env), true);
    case Summary => RefreshFailures(r, step.env, NavReady(r, step.env), false);
    case DispatchExperts => DispatchFailures(r, step.env);
    case DispatchReview => DispatchFailures(r, step.env);
    case AgentStarted(phase, expert) => StartFailures(r, step.env, phase, expert);
    case Synthesize => SynthesisFailures(r, step.env);
    case MarkDecisionReady => DecisionFailures(r, step.env);
    case Finalize(result) => FinalizeFailures(r, result);
    case _ =>
  }

  ghost predicate Entered(r: Run) {
    forall key :: key in r.agents ==> r.status !in Ahead(key.0)
  }

  lemma GrownEntered(r: Run, r': Run)
    requires Entered(r) && RecordsGrow(r, r')
    requires forall phase :: r.status !in Ahead(phase) ==> r'.status !in Ahead(phase)
    ensures Entered(r')
  {
    forall key | key in r'.agents ensures r'.status !in Ahead(key.0) {
      assert PhaseAllowed(key.0) !! Ahead(key.0);
    }
  }

  lemma StepKeepsEntered(r: Run, step: Step)
    requires Entered(r)
    ensures Entered(Perform(r, step))
  {
    StepGrows(r, step);
    forall phase ensures r.status !in Ahead(phase) ==> Perform(r, step).status !in Ahead(phase) {
      StepKeepsWindowClosed(r, step, phase);
    }
    GrownEntered(r, Perform(r, step));
  }

  lemma StepKeepsAccounted(r: Run, step: Step)
    requires Dispatched(r) && Accounted(r)
    ensures Accounted(Perform(r, step))
  {
    StepKeepsEntered(r, step);
    StepGrows(r, step);
    StepFailures(r, step);
    AccountedNext(r, Perform(r, step));
  }

  lemma AccountedNext(r: Run, r': Run)
    requires Accounted(r) && RecordsGrow(r, r') && FailuresOfAgents(r, r') && Entered(r')
    ensures Accounted(r')
  {
    assert forall key :: key in r.agents ==> key in r'.agents;
  }

  lemma {:induction false} AlwaysAccounted(r: Run, steps: seq<Step>)
    requires Initial(r)
    ensures Accounted(Exec(r, steps))
  {
    if steps != [] {
      var front := steps[..|steps| - 1];
      AlwaysAccounted(r, front);
      AlwaysDispatched(r, front);
      StepKeepsAccounted(Exec(r, front), steps[|steps| - 1]);
    }
  }

  // ----- outside its window a failure stays -----

  lemma {:induction false} ValidateKeepsFailure(r: Run, env: Env, phase: Phase, ids: seq<Id>, k: nat, f: Failure)
    requires k <= |ids| && f in r.failures && f.phase != phase
    ensures f in After(r, ValidateFrom(r, env, phase, ids, k)).failures
    decreases |ids| - k
  {
    if k == |ids| {
      LastStep(r, env, phase, ids);
    } else if Accepts(r, env, phase, ids[k]) {
      AcceptedStep(r, env, phase, ids, k);
      ValidateKeepsFailure(MarkCompleted(r, phase, ids[k]), env, phase, ids, k + 1, f);
    } else {
      RejectedStep(r, env, phase, ids, k);
    }
  }

  lemma StepKeepsFailure(r: Run, step: Step, f: Failure)
    requires f in r.failures && r.status !in PhaseAllowed(f.phase)
    ensures f in Perform(r, step).failures
  {
    match step.cmd
    case ValidateResponses(phase) =>
      if CommandAllowed(r, step.cmd) {
        ValidateKeepsFailure(r, step.env, phase, ExpectedIds(r, phase), 0, f);
      }
    case DispatchChallenge => ChallengeKeepsFailures(r, step.env);
    case _ =>
  }

  lemma {:induction false} FailureStays(r: Run, steps: seq<Step>, f: Failure)
    requires f in r.failures && r.status !in Ahead(f.phase) && r.status !in PhaseAllowed(f.phase)
    ensures var r' := Exec(r, steps);
      f in r'.failures && r'.status !in Ahead(f.phase) && r'.status !in PhaseAllowed(f.phase)
  {
    if steps != [] {
      var before, last := Exec(r, steps[..|steps| - 1]), steps[|steps| - 1];
      FailureStays(r, steps[..|steps| - 1], f);
      StepKeepsFailure(before, last, f);
      StepKeepsWindowClosed(before, last, f.phase);
    }
  }

  // ----- inside it the agent's completion settles it -----

  lemma CompletionSettles(r: Run, env: Env, f: Failure)
    requires f in r.failures && (f.phase, f.expert) in r.agents
    requires r.status in PhaseAllowed(f.phase) && !f.kind.FailedAgent?
    requires env.files(f.phase, f.expert).markdown && env.files(f.phase, f.expert).json.Good?
    ensures f !in Perform(r, Step(AgentCompleted(f.phase, f.expert), env)).failures
  {
    WaitsForAllowed(r.status, f.phase);
  }

  ghost predicate CanBeSettled(r: Run, f: Failure) {
    exists steps :: f !in Exec(r, steps).failures
  }

  /** In every reachable run: a recorded failure can still be settled by some continuation exactly when it is not the
      failure of an agent itself and its phase's window is open. */
  lemma SettledIff(r0: Run, steps: seq<Step>, f: Failure)
    requires Initial(r0) && f in Exec(r0, steps).failures
    ensures CanBeSettled(Exec(r0, steps), f) <==>
      !f.kind.FailedAgent? && Exec(r0, steps).status in PhaseAllowed(f.phase)
  {
    var r := Exec(r0, steps);
    AlwaysAccounted(r0, steps);
    if f.kind.FailedAgent? {
      forall more ensures f in Exec(r, more).failures {
        AgentFailureBlocksGuide(r, more, f);
      }
    } else if r.status in PhaseAllowed(f.phase) {
      var env := Env(true, 0, true, {}, true,
                     (phase, id) => ResponseFile(true, Good(Response(VerdictProceed, false, false, false))),
                     (phase, id) => false, true, []);
      CompletionSettles(r, env, f);
      var more := [Step(AgentCompleted(f.phase, f.expert), env)];
      assert more[..0] == [];
      assert f !in Exec(r, more).failures;
    } else {
      assert (f.phase, f.expert) in r.agents;
      forall more ensures f in Exec(r, more).failures {
        FailureStays(r, more, f);
      }
    }
  }
}

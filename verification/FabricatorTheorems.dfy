/** What every Fabricator run keeps. */
module FabricatorTheorems {
  import opened Options
  import opened Sequences
  import opened FabricatorModel

  lemma ExecSnoc(r: Run, steps: seq<Step>, n: nat)
    requires n < |steps|
    ensures Exec(r, steps[..n + 1]) == Perform(Exec(r, steps[..n]), steps[n])
  {
    assert steps[..n + 1][..n] == steps[..n];
  }

  // ----- response validation -----

  ghost predicate AllGood(env: Env, phase: Phase, ids: seq<Id>, k: nat) {
    forall i :: k <= i < |ids| ==> env.files(phase, ids[i]).markdown && env.files(phase, ids[i]).json.Good?
  }

  ghost predicate AllRegistered(agents: Agents, phase: Phase, ids: seq<Id>, k: nat) {
    forall i :: k <= i < |ids| ==> (phase, ids[i]) in agents
  }

  lemma AfterCons(r: Run, w: Run, rest: Effect)
    ensures After(r, Effect([w] + rest.writes, rest.ok)) == After(w, rest)
  {
  }

  /** An accepted response settles its agent and validation goes on. */
  lemma AcceptedStep(r: Run, env: Env, phase: Phase, ids: seq<Id>, k: nat)
    requires k < |ids| && Accepts(r, env, phase, ids[k])
    ensures var done := MarkCompleted(r, phase, ids[k]);
      var e, rest := ValidateFrom(r, env, phase, ids, k), ValidateFrom(done, env, phase, ids, k + 1);
      e.ok == rest.ok && After(r, e) == After(done, rest)
  {
    var done := MarkCompleted(r, phase, ids[k]);
    AfterCons(r, done, ValidateFrom(done, env, phase, ids, k + 1));
  }

  /** Any other response stops it, at most recording a failure of a response. */
  lemma RejectedStep(r: Run, env: Env, phase: Phase, ids: seq<Id>, k: nat)
    requires k < |ids| && !Accepts(r, env, phase, ids[k])
    ensures var e := ValidateFrom(r, env, phase, ids, k);
      && !e.ok
      && (After(r, e) == r || exists kind :: After(r, e) == WithFailure(r, phase, ids[k], kind))
  {
  }

  lemma LastStep(r: Run, env: Env, phase: Phase, ids: seq<Id>)
    ensures var e := ValidateFrom(r, env, phase, ids, |ids|);
      e.ok && After(r, e) == r.(status := CollectedStatus(phase), reviewBlockers := After(r, e).reviewBlockers)
  {
  }

  /** Validation succeeds exactly when every remaining file is good and every expert is registered; otherwise the
      status stays. */
  lemma {:induction false} ValidateFromIff(r: Run, env: Env, phase: Phase, ids: seq<Id>, k: nat)
    requires k <= |ids| && r.status in PhaseAllowed(phase) && r.status !in TERMINAL
    ensures var e := ValidateFrom(r, env, phase, ids, k);
      && (e.ok <==> AllGood(env, phase, ids, k) && AllRegistered(r.agents, phase, ids, k))
      && After(r, e).status == (if e.ok then CollectedStatus(phase) else r.status)
    decreases |ids| - k
  {
    if k == |ids| {
      LastStep(r, env, phase, ids);
    } else {
      NextGood(env, phase, ids, k);
      NextRegistered(r.agents, phase, ids, k);
      if Accepts(r, env, phase, ids[k]) {
        var done := MarkCompleted(r, phase, ids[k]);
        AllRegisteredKeys(r.agents, done.agents, phase, ids, k + 1);
        ValidateFromIff(done, env, phase, ids, k + 1);
        AcceptedStep(r, env, phase, ids, k);
      } else {
        RejectedStep(r, env, phase, ids, k);
      }
    }
  }

  lemma NextGood(env: Env, phase: Phase, ids: seq<Id>, k: nat)
    requires k < |ids|
    ensures AllGood(env, phase, ids, k) <==>
      env.files(phase, ids[k]).markdown && env.files(phase, ids[k]).json.Good? && AllGood(env, phase, ids, k + 1)
  {
  }

  lemma NextRegistered(agents: Agents, phase: Phase, ids: seq<Id>, k: nat)
    requires k < |ids|
    ensures AllRegistered(agents, phase, ids, k) <==>
      (phase, ids[k]) in agents && AllRegistered(agents, phase, ids, k + 1)
  {
  }

  lemma AllRegisteredKeys(a: Agents, b: Agents, phase: Phase, ids: seq<Id>, k: nat)
    requires a.Keys == b.Keys
    ensures AllRegistered(a, phase, ids, k) <==> AllRegistered(b, phase, ids, k)
  {
    assert forall key :: key in a <==> key in b;
  }

  lemma CompletedFrame(r: Run, phase: Phase, ids: seq<Id>, id: Id)
    requires (phase, id) in r.agents && id in ids
    ensures SameBut(r, MarkCompleted(r, phase, id), phase, ids)
  {
  }

  lemma FailureFrame(r: Run, phase: Phase, ids: seq<Id>, id: Id, kind: FailureKind)
    requires id in ids
    ensures SameBut(r, WithFailure(r, phase, id, kind), phase, ids)
  {
  }

  lemma SameButTransitive(a: Run, b: Run, c: Run, phase: Phase, ids: seq<Id>)
    requires SameBut(a, b, phase, ids) && SameBut(b, c, phase, ids)
    ensures SameBut(a, c, phase, ids)
  {
  }

  /** Nothing but the phase's listed agents, their failures and the collection results is touched. */
  lemma {:induction false} ValidateFrame(r: Run, env: Env, phase: Phase, ids: seq<Id>, k: nat)
    requires k <= |ids|
    ensures SameBut(r, After(r, ValidateFrom(r, env, phase, ids, k)), phase, ids)
    decreases |ids| - k
  {
    if k == |ids| {
      LastStep(r, env, phase, ids);
    } else if Accepts(r, env, phase, ids[k]) {
      var done := MarkCompleted(r, phase, ids[k]);
      ValidateFrame(done, env, phase, ids, k + 1);
      AcceptedStep(r, env, phase, ids, k);
      CompletedFrame(r, phase, ids, ids[k]);
      SameButTransitive(r, done, After(r, ValidateFrom(r, env, phase, ids, k)), phase, ids);
    } else {
      FailureFrame(r, phase, ids, ids[k], MissingResponse);
      FailureFrame(r, phase, ids, ids[k], InvalidResponse);
    }
  }

  /** A successful validation settles every listed agent. */
  lemma {:induction false} ValidateSettles(r: Run, env: Env, phase: Phase, ids: seq<Id>, k: nat, i: nat)
    requires k <= i < |ids| && ValidateFrom(r, env, phase, ids, k).ok
    ensures SettledAgent(After(r, ValidateFrom(r, env, phase, ids, k)), phase, ids[i])
    decreases |ids| - k
  {
    var done := MarkCompleted(r, phase, ids[k]);
    if i == k {
      ValidateKeepsSettled(done, env, phase, ids, k + 1, ids[k]);
    } else {
      ValidateSettles(done, env, phase, ids, k + 1, i);
    }
  }

  /** The record is finished and carries none of the failures an accepted response settles. */
  ghost predicate SettledAgent(r: Run, phase: Phase, id: Id) {
    && (phase, id) in r.agents && r.agents[(phase, id)] == Finished
    && forall kind :: kind in {InvalidResponse, MissingResponse, OverdueAgent} ==>
       Failure(phase, id, kind) !in r.failures
  }

  /** Only the listed agents of the phase, failures and collection results may differ. */
  ghost predicate SameBut(a: Run, b: Run, phase: Phase, ids: seq<Id>) {
    && b.agents.Keys == a.agents.Keys
    && (forall key :: key in a.agents && !(key.0 == phase && key.1 in ids) ==> b.agents[key] == a.agents[key])
    && (forall f: Failure :: f.phase != phase || f.expert !in ids ==> (f in b.failures <==> f in a.failures))
    && b == a.(status := b.status, agents := b.agents, failures := b.failures, reviewBlockers := b.reviewBlockers)
  }

  lemma {:induction false} ValidateKeepsSettled(r: Run, env: Env, phase: Phase, ids: seq<Id>, k: nat, id: Id)
    requires k <= |ids| && SettledAgent(r, phase, id) && ValidateFrom(r, env, phase, ids, k).ok
    ensures SettledAgent(After(r, ValidateFrom(r, env, phase, ids, k)), phase, id)
    decreases |ids| - k
  {
    if k < |ids| {
      ValidateKeepsSettled(MarkCompleted(r, phase, ids[k]), env, phase, ids, k + 1, id);
    }
  }

  // ----- registered agents -----

  lemma {:induction false} RegisterRecords(agents: Agents, phase: Phase, ids: seq<Id>)
    ensures forall key :: key in Register(agents, phase, ids) <==> key in agents || (key.0 == phase && key.1 in ids)
    ensures forall key :: key in Register(agents, phase, ids) ==>
              Register(agents, phase, ids)[key] == if key.0 == phase && key.1 in ids then Expected else agents[key]
  {
    if ids != [] {
      RegisterRecords(agents, phase, ids[..|ids| - 1]);
      assert ids == ids[..|ids| - 1] + [ids[|ids| - 1]];
    }
  }

  /** Whoever a phase waits for has been dispatched; there is at most one challenge round. */
  ghost predicate Dispatched(r: Run) {
    && |r.rounds| <= 1
    && (r.status in {ExpertDispatchReady, ExpertAgentsStarted} ==>
       r.experts != [] && AllRegistered(r.agents, Expert, r.experts, 0))
    && (r.status in {ChallengeDispatchReady, ChallengeAgentsStarted} ==>
          r.rounds != [] && r.rounds[0] != [] && AllRegistered(r.agents, Challenge, r.rounds[0], 0))
    && (r.status in {ReviewDispatchReady, ReviewAgentStarted, ReviewCollected} ==>
       r.reviewers != [] && AllRegistered(r.agents, Review, r.reviewers, 0))
  }

  /** No phase starts waiting, and nobody is unregistered. */
  ghost predicate Stable(r: Run, r': Run) {
    && r'.experts == r.experts && r'.rounds == r.rounds && r'.reviewers == r.reviewers
    && r.agents.Keys <= r'.agents.Keys
    && (WaitsFor(r'.status) == None || WaitsFor(r'.status) == WaitsFor(r.status))
  }

  /** The phase whose agents a status waits for. */
  function WaitsFor(status: Status): Option<Phase> {
    match status
    case ExpertDispatchReady => Some(Expert) case ExpertAgentsStarted => Some(Expert)
    case ChallengeDispatchReady => Some(Challenge) case ChallengeAgentsStarted => Some(Challenge)
    case ReviewDispatchReady => Some(Review) case ReviewAgentStarted => Some(Review)
      case ReviewCollected => Some(Review)
    case _ => None
  }

  lemma WaitsForAllowed(status: Status, phase: Phase)
    ensures WaitsFor(status) == Some(phase) <==> status in PhaseAllowed(phase)
  {
  }

  lemma StableKeepsDispatched(r: Run, r': Run)
    requires Dispatched(r) && Stable(r, r')
    ensures Dispatched(r')
  {
  }

  predicate Dispatches(cmd: Command) {
    cmd.DispatchExperts? || cmd.DispatchReview? || cmd.DispatchChallenge? || cmd.RenderChallengePrompts?
  }

  lemma OthersAreStable(r: Run, cmd: Command, env: Env)
    requires !Dispatches(cmd)
    ensures Stable(r, Perform(r, Step(cmd, env)))
  {
    match cmd
    case ValidateResponses(phase) => ValidateIsStable(r, env, phase);
    case AgentStarted(phase, expert) => StartIsStable(r, env, phase, expert);
    case AgentCompleted(phase, expert) => CompletionIsStable(r, env, phase, expert);
    case AgentFailed(phase, expert) => FailureIsStable(r, env, phase, expert);
    case _ =>
  }

  lemma ValidateIsStable(r: Run, env: Env, phase: Phase)
    ensures Stable(r, Perform(r, Step(ValidateResponses(phase), env)))
  {
    if CommandAllowed(r, ValidateResponses(phase)) {
      WaitsForAllowed(r.status, phase);
      ValidateFromIff(r, env, phase, ExpectedIds(r, phase), 0);
      ValidateFrame(r, env, phase, ExpectedIds(r, phase), 0);
    }
  }

  lemma StartIsStable(r: Run, env: Env, phase: Phase, expert: Id)
    ensures Stable(r, Perform(r, Step(AgentStarted(phase, expert), env)))
  {
    WaitsForAllowed(r.status, phase);
    WaitsForAllowed(StartedStatus(phase), phase);
  }

  lemma CompletionIsStable(r: Run, env: Env, phase: Phase, expert: Id)
    ensures Stable(r, Perform(r, Step(AgentCompleted(phase, expert), env)))
  {
  }

  lemma FailureIsStable(r: Run, env: Env, phase: Phase, expert: Id)
    ensures Stable(r, Perform(r, Step(AgentFailed(phase, expert), env)))
  {
  }

  lemma StepKeepsDispatched(r: Run, step: Step)
    requires Dispatched(r)
    ensures Dispatched(Perform(r, step))
  {
    match step.cmd
    case DispatchExperts => DispatchExpertsKeepsDispatched(r, step.env);
    case DispatchReview => DispatchReviewKeepsDispatched(r, step.env);
    case DispatchChallenge => DispatchChallengeKeepsDispatched(r, step.env);
    case RenderChallengePrompts(_) =>
    case _ =>
      OthersAreStable(r, step.cmd, step.env);
      StableKeepsDispatched(r, Perform(r, step));
  }

  lemma DispatchExpertsKeepsDispatched(r: Run, env: Env)
    requires Dispatched(r)
    ensures Dispatched(Perform(r, Step(DispatchExperts, env)))
  {
    RegisterRecords(r.agents, Expert, r.experts);
  }

  lemma DispatchReviewKeepsDispatched(r: Run, env: Env)
    requires Dispatched(r)
    ensures Dispatched(Perform(r, Step(DispatchReview, env)))
  {
    if ChooseReviewer(r.experts).Some? {
      RegisterRecords(r.agents, Review, [ChooseReviewer(r.experts).value]);
    }
  }

  lemma DispatchChallengeKeepsDispatched(r: Run, env: Env)
    requires Dispatched(r)
    ensures Dispatched(Perform(r, Step(DispatchChallenge, env)))
  {
    if r.synthesis.Some? {
      var ids := SelectChallengeExperts(r);
      RegisterRecords(r.agents, Challenge, ids);
      var unique := Dedupe(ids);
      assert forall k :: 0 <= k < |unique| ==> unique[k] in unique;
    }
  }

  lemma {:induction false} AlwaysDispatched(r: Run, steps: seq<Step>)
    requires Initial(r)
    ensures Dispatched(Exec(r, steps))
  {
    if steps != [] {
      AlwaysDispatched(r, steps[..|steps| - 1]);
      StepKeepsDispatched(Exec(r, steps[..|steps| - 1]), steps[|steps| - 1]);
    }
  }

  /** In every run at most one challenge round is recorded, by any mix of commands. */
  lemma OneChallengeRound(r: Run, steps: seq<Step>)
    requires Initial(r)
    ensures |Exec(r, steps).rounds| <= 1
  {
    AlwaysDispatched(r, steps);
  }

  /** In every reachable state, collecting a phase succeeds exactly when its status allows it and every expected
      response is present and valid. */
  lemma ValidateIff(r0: Run, steps: seq<Step>, phase: Phase, env: Env)
    requires Initial(r0)
    ensures var r := Exec(r0, steps);
      EffectOf(ValidateResponses(phase), env, r).ok <==>
        r.status in PhaseAllowed(phase) && AllGood(env, phase, ExpectedIds(r, phase), 0)
  {
    AlwaysDispatched(r0, steps);
    DispatchedValidateIff(Exec(r0, steps), phase, env);
  }

  lemma DispatchedExpected(r: Run, phase: Phase)
    requires Dispatched(r) && r.status in PhaseAllowed(phase)
    ensures ExpectedIds(r, phase) != [] && AllRegistered(r.agents, phase, ExpectedIds(r, phase), 0)
      && r.status !in TERMINAL
  {
  }

  lemma DispatchedValidateIff(r: Run, phase: Phase, env: Env)
    requires Dispatched(r)
    ensures EffectOf(ValidateResponses(phase), env, r).ok <==>
      r.status in PhaseAllowed(phase) && AllGood(env, phase, ExpectedIds(r, phase), 0)
  {
    if r.status in PhaseAllowed(phase) {
      DispatchedExpected(r, phase);
      ValidateFromIff(r, env, phase, ExpectedIds(r, phase), 0);
    }
  }

  // ----- terminal statuses -----

  /** Terminal statuses absorb: no write of a guarded command changes one. */
  lemma TerminalAbsorbs(r: Run, step: Step)
    requires r.status in TERMINAL && !Unguarded(step.cmd)
    ensures forall w :: w in EffectOf(step.cmd, step.env, r).writes ==> w.status == r.status
  {
  }

  /** The two unguarded commands are the only way out: a terminal status is overwritten exactly by `render-prompts`,
      and by a raw challenge rendering whose own checks pass. */
  lemma TerminalOverwrittenIff(r: Run, step: Step)
    requires r.status in TERMINAL
    ensures Perform(r, step).status != r.status <==>
      step.cmd.RenderPrompts? || (step.cmd.RenderChallengePrompts? && CanRender(r, step.env, step.cmd.ids))
  {
    if step.cmd.RenderChallengePrompts? {
      ChallengeRendersIff(r, step.env, step.cmd.ids);
    } else if !step.cmd.RenderPrompts? {
      TerminalAbsorbs(r, step);
    }
  }

  /** What rendering challenge prompts checks: known, selected experts, their number without repetition within the
      cap, a brief, and no round yet. The status plays no part. */
  predicate CanRender(r: Run, env: Env, ids: seq<Id>) {
    && ids != [] && (forall x :: x in ids ==> x in env.knownExperts && x in r.experts)
    && |Members(ids)| <= r.maxChallenge && env.briefExists && r.rounds == []
  }

  lemma {:induction false} DedupeNames(ids: seq<Id>)
    ensures |Dedupe(ids)| == |Members(ids)|
  {
    if ids != [] {
      var front, last := ids[..|ids| - 1], ids[|ids| - 1];
      DedupeNames(front);
      assert ids == front + [last];
      assert Members(ids) == Members(front) + {last} by {
        assert forall x :: x in ids <==> x in front || x == last;
      }
      assert last in Dedupe(front) <==> last in Members(front);
      if last in Members(front) {
        assert Members(ids) == Members(front);
      }
    }
  }

  /** Rendering succeeds exactly under those checks, and then records one round naming each expert once. */
  lemma ChallengeRendersIff(r: Run, env: Env, ids: seq<Id>)
    ensures var e := RenderChallengeEffect(r, env, ids); var r' := After(r, e);
      && (e.ok <==> CanRender(r, env, ids))
      && (!e.ok ==> r' == r)
      && (e.ok ==> |r'.rounds| == 1 && Members(r'.rounds[0]) == Members(ids) && |r'.rounds[0]| == |Members(ids)|
                   && r' == r.(rounds := r'.rounds, challengeRequired := true, status := ChallengePromptsRendered))
  {
    DedupeNames(ids);
    if ids != [] {
      assert ids[0] in Dedupe(ids);
    }
  }

  lemma TerminalKept(r: Run, step: Step)
    requires r.status in TERMINAL && !Unguarded(step.cmd)
    ensures Perform(r, step).status == r.status
  {
    TerminalOverwrittenIff(r, step);
  }

  lemma {:induction false} TerminalStays(r: Run, steps: seq<Step>)
    requires r.status in TERMINAL && forall k :: 0 <= k < |steps| ==> !Unguarded(steps[k].cmd)
    ensures Exec(r, steps).status == r.status
  {
    if steps != [] {
      TerminalStays(r, steps[..|steps| - 1]);
      TerminalKept(Exec(r, steps[..|steps| - 1]), steps[|steps| - 1]);
    }
  }

  // ----- how a run gets completed -----

  const AFTER_DECISION: set<Status> := {DecisionReady, ImplementationReady, ReviewDispatchReady, ReviewAgentStarted,
                                        ReviewCollected, Completed}
  const AFTER_SYNTHESIS: set<Status> := AFTER_DECISION + {SynthesisReady, ChallengeDispatchReady,
                                                          ChallengeAgentsStarted, ChallengeCollected}
  const AFTER_EXPERTS: set<Status> := AFTER_SYNTHESIS + {ExpertCollected}

  /** What one command may do to the status, with what it must have seen. */
  ghost predicate Moves(r: Run, cmd: Command, env: Env, r': Run, ok: bool) {
    && r'.experts == r.experts
    && match cmd
       case RenderPrompts => r'.status.PromptsRendered?
       case RenderChallengePrompts(_) => if ok then r'.status.ChallengePromptsRendered? else r'.status == r.status
       case DispatchExperts => Goes(r, r', ok, {Started}, ExpertDispatchReady)
       case ValidateResponses(phase) =>
         Goes(r, r', ok, PhaseAllowed(phase), CollectedStatus(phase))
           && (ok ==> AllGood(env, phase, ExpectedIds(r, phase), 0))
       case Synthesize =>
         Goes(r, r', ok, {ExpertCollected}, SynthesisReady) && (ok ==> r'.synthesis == Some(BuildSynthesis(r, env)))
       case DispatchChallenge =>
         Goes(r, r', ok, {SynthesisReady}, ChallengeDispatchReady)
           || (!ok && r.status.SynthesisReady? && r'.status.ChallengePromptsRendered?)
       case MarkDecisionReady => Goes(r, r', ok, {SynthesisReady, ChallengeCollected}, DecisionReady)
         && (ok ==> Decided(env))
       case MarkImplementationReady => Goes(r, r', ok, {DecisionReady}, ImplementationReady)
       case DispatchReview => Goes(r, r', ok, {DecisionReady, ImplementationReady}, ReviewDispatchReady)
       case AgentStarted(phase, _) => Goes(r, r', ok, PhaseAllowed(phase), StartedStatus(phase))
       case Finalize(ReadyForHumanReview) =>
         Goes(r, r', ok, {DecisionReady, ReviewCollected, ImplementationReady}, Completed)
           && (ok ==> r.reviewBlockers == [])
       case Finalize(result) =>
         if ok then r.status !in TERMINAL && r'.status in {Blocked, Cancelled} else r'.status == r.status
       case _ => r'.status == r.status
  }

  ghost predicate Goes(r: Run, r': Run, ok: bool, from: set<Status>, to: Status) {
    if ok then r.status in from && r'.status == to else r'.status == r.status
  }

  /** Every command moves the status as described. */
  lemma StepMoves(r: Run, cmd: Command, env: Env)
    ensures Moves(r, cmd, env, Perform(r, Step(cmd, env)), EffectOf(cmd, env, r).ok)
  {
    match cmd
    case DispatchExperts => ExpertDispatchMoves(r, env);
    case ValidateResponses(phase) => ValidateMoves(r, env, phase);
    case Synthesize => SynthesizeMoves(r, env);
    case DispatchChallenge => ChallengeMoves(r, env);
    case MarkDecisionReady => DecisionMoves(r, env);
    case DispatchReview => ReviewDispatchMoves(r, env);
    case AgentStarted(phase, expert) => StartMoves(r, env, phase, expert);
    case AgentCompleted(phase, expert) => CompletionMoves(r, env, phase, expert);
    case AgentFailed(phase, expert) => FailureMoves(r, env, phase, expert);
    case Finalize(result) => FinalizeMoves(r, env, result);
    case _ =>
  }

  lemma ExpertDispatchMoves(r: Run, env: Env)
    ensures Moves(r, DispatchExperts, env, Perform(r, Step(DispatchExperts, env)), EffectOf(DispatchExperts, env, r).ok)
  {
  }

  lemma ValidateMoves(r: Run, env: Env, phase: Phase)
    ensures Moves(r, ValidateResponses(phase), env, Perform(r, Step(ValidateResponses(phase), env)),
                  EffectOf(ValidateResponses(phase), env, r).ok)
  {
    if CommandAllowed(r, ValidateResponses(phase)) {
      ValidateFromIff(r, env, phase, ExpectedIds(r, phase), 0);
      ValidateFrame(r, env, phase, ExpectedIds(r, phase), 0);
    }
  }

  lemma SynthesizeMoves(r: Run, env: Env)
    ensures Moves(r, Synthesize, env, Perform(r, Step(Synthesize, env)), EffectOf(Synthesize, env, r).ok)
  {
  }

  lemma ChallengeMoves(r: Run, env: Env)
    ensures Moves(r, DispatchChallenge, env, Perform(r, Step(DispatchChallenge, env)),
                  EffectOf(DispatchChallenge, env, r).ok)
  {
    ChallengeDispatchIff(r, env);
    if Renderable(r, env) {
      RenderedDispatch(r, env);
      ChallengeRendersIff(r, env, SelectChallengeExperts(r));
    } else {
      UnrenderedDispatch(r, env);
    }
  }

  lemma DecisionMoves(r: Run, env: Env)
    ensures Moves(r, MarkDecisionReady, env, Perform(r, Step(MarkDecisionReady, env)),
                  EffectOf(MarkDecisionReady, env, r).ok)
  {
    DecisionReadyIff(r, env);
  }

  lemma ReviewDispatchMoves(r: Run, env: Env)
    ensures Moves(r, DispatchReview, env, Perform(r, Step(DispatchReview, env)), EffectOf(DispatchReview, env, r).ok)
  {
  }

  lemma StartMoves(r: Run, env: Env, phase: Phase, expert: Id)
    ensures Moves(r, AgentStarted(phase, expert), env, Perform(r, Step(AgentStarted(phase, expert), env)),
                  EffectOf(AgentStarted(phase, expert), env, r).ok)
  {
  }

  lemma CompletionMoves(r: Run, env: Env, phase: Phase, expert: Id)
    ensures Moves(r, AgentCompleted(phase, expert), env, Perform(r, Step(AgentCompleted(phase, expert), env)),
                  EffectOf(AgentCompleted(phase, expert), env, r).ok)
  {
  }

  lemma FailureMoves(r: Run, env: Env, phase: Phase, expert: Id)
    ensures Moves(r, AgentFailed(phase, expert), env, Perform(r, Step(AgentFailed(phase, expert), env)),
                  EffectOf(AgentFailed(phase, expert), env, r).ok)
  {
  }

  lemma FinalizeMoves(r: Run, env: Env, result: Result)
    ensures Moves(r, Finalize(result), env, Perform(r, Step(Finalize(result), env)),
                  EffectOf(Finalize(result), env, r).ok)
  {
  }

  /** The only ways into each stretch of the lifecycle. */
  lemma Entries(r: Run, cmd: Command, env: Env, r': Run, ok: bool)
    requires Moves(r, cmd, env, r', ok)
    ensures r'.status in AFTER_EXPERTS && r.status !in AFTER_EXPERTS ==>
              cmd == ValidateResponses(Expert) && AllGood(env, Expert, r.experts, 0)
    ensures r'.status in AFTER_SYNTHESIS && r.status !in AFTER_SYNTHESIS ==>
              cmd == Synthesize && r.status in AFTER_EXPERTS && r'.synthesis == Some(BuildSynthesis(r, env))
    ensures r'.status in AFTER_DECISION && r.status !in AFTER_DECISION ==>
              cmd == MarkDecisionReady && r.status in AFTER_SYNTHESIS && Decided(env)
    ensures r'.status.Completed? && !r.status.Completed? ==>
              cmd == Finalize(ReadyForHumanReview) && r.status in AFTER_DECISION && r.reviewBlockers == []
  {
  }

  /** Every traceability item was resolved and mentioned in an Arbiter document. */
  ghost predicate Decided(env: Env) {
    env.traceReadable && forall k :: 0 <= k < |env.items| ==> env.items[k].resolved && env.items[k].referenced
  }

  ghost function At(r: Run, steps: seq<Step>, n: nat): Run
    requires n <= |steps|
  {
    Exec(r, steps[..n])
  }

  lemma {:induction false} ExpertsFixed(r: Run, steps: seq<Step>)
    ensures Exec(r, steps).experts == r.experts
  {
    if steps != [] {
      ExpertsFixed(r, steps[..|steps| - 1]);
      StepMoves(Exec(r, steps[..|steps| - 1]), steps[|steps| - 1].cmd, steps[|steps| - 1].env);
    }
  }

  /** The last step into a stretch of the lifecycle before time n. */
  lemma {:induction false} LastEntry(r: Run, steps: seq<Step>, stretch: set<Status>, n: nat) returns (k: nat)
    requires n <= |steps| && r.status !in stretch && At(r, steps, n).status in stretch
    ensures k < n && At(r, steps, k).status !in stretch && At(r, steps, k + 1).status in stretch
  {
    assert steps[..0] == [];
    if At(r, steps, n - 1).status in stretch {
      k := LastEntry(r, steps, stretch, n - 1);
    } else {
      k := n - 1;
    }
  }

  lemma EntryAt(r: Run, steps: seq<Step>, k: nat)
    requires k < |steps|
    ensures Moves(At(r, steps, k), steps[k].cmd, steps[k].env, At(r, steps, k + 1),
                  EffectOf(steps[k].cmd, steps[k].env, At(r, steps, k)).ok)
  {
    ExecSnoc(r, steps, k);
    StepMoves(At(r, steps, k), steps[k].cmd, steps[k].env);
  }

  /** When step k enters the given stretch, it did so in one of the ways above. */
  lemma EntryFacts(r: Run, steps: seq<Step>, k: nat)
    requires k < |steps|
    ensures var a, b, cmd, env := At(r, steps, k), At(r, steps, k + 1), steps[k].cmd, steps[k].env;
      && (b.status in AFTER_EXPERTS && a.status !in AFTER_EXPERTS ==>
         cmd == ValidateResponses(Expert) && AllGood(env, Expert, a.experts, 0))
      && (b.status in AFTER_SYNTHESIS && a.status !in AFTER_SYNTHESIS ==>
            cmd == Synthesize && a.status in AFTER_EXPERTS && b.synthesis == Some(BuildSynthesis(a, env)))
      && (b.status in AFTER_DECISION && a.status !in AFTER_DECISION ==>
         cmd == MarkDecisionReady && a.status in AFTER_SYNTHESIS && Decided(env))
      && (b.status.Completed? && !a.status.Completed? ==>
            cmd == Finalize(ReadyForHumanReview) && a.status in AFTER_DECISION && a.reviewBlockers == [])
  {
    EntryAt(r, steps, k);
    var a := At(r, steps, k);
    Entries(a, steps[k].cmd, steps[k].env, At(r, steps, k + 1), EffectOf(steps[k].cmd, steps[k].env, a).ok);
  }

  /** Steps v < s < d < f validated all experts, synthesised, decided with a clean trace, and finalised without
      blockers. */
  ghost predicate Milestones(r: Run, steps: seq<Step>, v: nat, s: nat, d: nat, f: nat) {
    && v < s < d < f < |steps|
    && ValidatedAt(r, steps, v) && SynthesisedAt(r, steps, s) && DecidedAt(steps, d)
    && steps[f].cmd == Finalize(ReadyForHumanReview) && At(r, steps, f).reviewBlockers == []
  }

  ghost predicate ValidatedAt(r: Run, steps: seq<Step>, v: nat) {
    v < |steps| && steps[v].cmd == ValidateResponses(Expert) && AllGood(steps[v].env, Expert, r.experts, 0)
  }

  ghost predicate SynthesisedAt(r: Run, steps: seq<Step>, s: nat) {
    s < |steps| && steps[s].cmd == Synthesize && At(r, steps, s + 1).synthesis ==
      Some(BuildSynthesis(At(r, steps, s), steps[s].env))
  }

  ghost predicate DecidedAt(steps: seq<Step>, d: nat) {
    d < |steps| && steps[d].cmd == MarkDecisionReady && Decided(steps[d].env)
  }

  lemma ValidatedBefore(r: Run, steps: seq<Step>, n: nat) returns (v: nat)
    requires Initial(r) && n <= |steps| && At(r, steps, n).status in AFTER_EXPERTS
    ensures v < n && ValidatedAt(r, steps, v)
  {
    v := LastEntry(r, steps, AFTER_EXPERTS, n);
    EntryFacts(r, steps, v);
    ExpertsFixed(r, steps[..v]);
  }

  lemma SynthesisedBefore(r: Run, steps: seq<Step>, n: nat) returns (v: nat, s: nat)
    requires Initial(r) && n <= |steps| && At(r, steps, n).status in AFTER_SYNTHESIS
    ensures v < s < n && ValidatedAt(r, steps, v) && SynthesisedAt(r, steps, s)
  {
    s := LastEntry(r, steps, AFTER_SYNTHESIS, n);
    EntryFacts(r, steps, s);
    v := ValidatedBefore(r, steps, s);
  }

  lemma DecidedBefore(r: Run, steps: seq<Step>, n: nat) returns (v: nat, s: nat, d: nat)
    requires Initial(r) && n <= |steps| && At(r, steps, n).status in AFTER_DECISION
    ensures v < s < d < n && ValidatedAt(r, steps, v) && SynthesisedAt(r, steps, s) && DecidedAt(steps, d)
  {
    d := LastEntry(r, steps, AFTER_DECISION, n);
    EntryFacts(r, steps, d);
    v, s := SynthesisedBefore(r, steps, d);
  }

  /** A completed run passed, in this order, the validation of every selected expert's response, the synthesis, a
      decision that left no item unresolved or unmentioned, and a finalisation without review blockers; this holds for
      runs using unguarded commands as well. */
  lemma CompletedPassedMilestones(r: Run, steps: seq<Step>)
    requires Initial(r) && Exec(r, steps).status.Completed?
    ensures exists v, s, d, f :: Milestones(r, steps, v, s, d, f)
  {
    assert steps[..|steps|] == steps;
    var f := LastEntry(r, steps, {Completed}, |steps|);
    EntryFacts(r, steps, f);
    var v, s, d := DecidedBefore(r, steps, f);
    assert Milestones(r, steps, v, s, d, f);
  }

  // ----- the cap on active agents -----

  lemma SubsetSize<T>(a: set<T>, b: set<T>)
    requires a <= b
    ensures |a| <= |b|
  {
    if a != {} {
      var x :| x in a;
      SubsetSize(a - {x}, b - {x});
    }
  }

  lemma {:induction false} ValidateActivatesNone(r: Run, env: Env, phase: Phase, ids: seq<Id>, k: nat)
    requires k <= |ids|
    ensures forall w :: w in ValidateFrom(r, env, phase, ids, k).writes ==>
      ActiveAgents(w.agents) <= ActiveAgents(r.agents)
    decreases |ids| - k
  {
    if k < |ids| {
      ValidateActivatesNone(MarkCompleted(r, phase, ids[k]), env, phase, ids, k + 1);
    }
  }

  /** Every write of every command keeps the number of started agents within the effective policy. */
  lemma CapKept(r: Run, step: Step, cap: nat)
    requires |ActiveAgents(r.agents)| <= cap && step.env.maxActive <= cap
    ensures forall w :: w in EffectOf(step.cmd, step.env, r).writes ==> |ActiveAgents(w.agents)| <= cap
  {
    forall w | w in EffectOf(step.cmd, step.env, r).writes ensures |ActiveAgents(w.agents)| <= cap {
      if step.cmd.AgentStarted? {
        var key := (step.cmd.phase, step.cmd.expert);
        assert ActiveAgents(w.agents) == ActiveAgents(r.agents) + {key};
        assert r.agents[key] == Active ==> key in ActiveAgents(r.agents);
        assert r.agents[key] == Active ==> ActiveAgents(w.agents) == ActiveAgents(r.agents);
      } else {
        OthersActivateNone(r, step, w);
        SubsetSize(ActiveAgents(w.agents), ActiveAgents(r.agents));
      }
    }
  }

  lemma DispatchActivatesNone(r: Run, env: Env, phase: Phase, ids: seq<Id>, status: Status, w: Run)
    requires w in DispatchEffect(r, env, phase, ids, status).writes
    ensures ActiveAgents(w.agents) <= ActiveAgents(r.agents)
  {
    RegisterRecords(r.agents, phase, ids);
  }

  lemma ChallengeActivatesNone(r: Run, env: Env, w: Run)
    requires w in EffectOf(DispatchChallenge, env, r).writes
    ensures ActiveAgents(w.agents) <= ActiveAgents(r.agents)
  {
    var ids := SelectChallengeExperts(r);
    var r1 := After(r, RenderChallengeEffect(r, env, ids));
    if w in DispatchEffect(r1, env, Challenge, ids, ChallengeDispatchReady).writes {
      DispatchActivatesNone(r1, env, Challenge, ids, ChallengeDispatchReady, w);
    }
  }

  lemma AgentEventsActivateNone(r: Run, env: Env, phase: Phase, expert: Id, w: Run)
    requires w in EffectOf(AgentCompleted(phase, expert), env, r).writes
      || w in EffectOf(AgentFailed(phase, expert), env, r).writes
    ensures ActiveAgents(w.agents) <= ActiveAgents(r.agents)
  {
  }

  lemma OthersActivateNone(r: Run, step: Step, w: Run)
    requires !step.cmd.AgentStarted? && w in EffectOf(step.cmd, step.env, r).writes
    ensures ActiveAgents(w.agents) <= ActiveAgents(r.agents)
  {
    match step.cmd
    case DispatchExperts => DispatchActivatesNone(r.(navReady := true), step.env, Expert, r.experts,
                                                  ExpertDispatchReady, w);
    case DispatchReview =>
      var reviewer := ChooseReviewer(r.experts).value;
      DispatchActivatesNone(r.(reviewers := [reviewer]), step.env, Review, [reviewer], ReviewDispatchReady, w);
    case DispatchChallenge => ChallengeActivatesNone(r, step.env, w);
    case ValidateResponses(phase) => ValidateActivatesNone(r, step.env, phase, ExpectedIds(r, phase), 0);
    case AgentCompleted(phase, expert) => AgentEventsActivateNone(r, step.env, phase, expert, w);
    case AgentFailed(phase, expert) => AgentEventsActivateNone(r, step.env, phase, expert, w);
    case _ =>
  }

  /** With a fixed policy no reachable state has more started agents than it allows. */
  lemma {:induction false} ActiveAgentsCapped(r: Run, steps: seq<Step>, cap: nat)
    requires Initial(r) && forall k :: 0 <= k < |steps| ==> steps[k].env.maxActive <= cap
    ensures |ActiveAgents(Exec(r, steps).agents)| <= cap
  {
    if steps == [] {
      assert ActiveAgents(r.agents) == {};
    } else {
      var before := Exec(r, steps[..|steps| - 1]);
      ActiveAgentsCapped(r, steps[..|steps| - 1], cap);
      CapKept(before, steps[|steps| - 1], cap);
    }
  }

  // ----- the guide and the advance driver -----

  /** Whatever the guide proposes, the command's own guard accepts in that state. */
  lemma GuideIsAllowed(r: Run)
    ensures NextCommand(r).Some? ==> CommandAllowed(r, NextCommand(r).value)
  {
  }

  function Rank(status: Status): nat {
    match status
    case Started => 0 case ExpertDispatchReady => 1 case ExpertAgentsStarted => 2 case ExpertCollected => 3
    case SynthesisReady => 4 case ChallengePromptsRendered => 5 case ChallengeDispatchReady => 6
    case ChallengeAgentsStarted => 7 case ChallengeCollected => 8 case DecisionReady => 9 case ImplementationReady => 10
    case ReviewDispatchReady => 11 case ReviewAgentStarted => 12 case ReviewCollected => 13
    case Completed => 14 case Blocked => 14 case Cancelled => 14 case PromptsRendered => 14
  }

  /** `advance`: refresh and read the guide, run its command, and when that succeeds read the guide again. */
  datatype Advanced = Advanced(run: Run, advanced: bool)

  function Advance(r: Run, before: Env, during: Env, after: Env): Advanced {
    var r1 := Perform(r, Step(NextStep, before));
    var cmd := NextCommand(r1);
    if cmd.None? then Advanced(r1, false)
    else
      var e := EffectOf(cmd.value, during, r1);
      if e.ok then Advanced(Perform(After(r1, e), Step(NextStep, after)), true) else Advanced(After(r1, e), false)
  }

  lemma GuidedMoveRaisesRank(r: Run, cmd: Command, env: Env, r': Run, ok: bool)
    requires NextCommand(r) == Some(cmd) && Moves(r, cmd, env, r', ok)
    ensures Rank(r'.status) >= Rank(r.status) && (ok ==> Rank(r'.status) > Rank(r.status))
  {
  }

  lemma RefreshKeepsStatus(r: Run, env: Env)
    ensures Perform(r, Step(NextStep, env)).status == r.status
  {
  }

  /** A successful advance strictly raises the rank; no advance lowers it. */
  lemma AdvanceRaisesRank(r: Run, before: Env, during: Env, after: Env)
    ensures var a := Advance(r, before, during, after);
      && Rank(a.run.status) >= Rank(r.status)
      && (a.advanced ==> Rank(a.run.status) > Rank(r.status))
  {
    var r1 := Perform(r, Step(NextStep, before));
    RefreshKeepsStatus(r, before);
    if NextCommand(r1).Some? {
      var cmd := NextCommand(r1).value;
      var r2 := Perform(r1, Step(cmd, during));
      StepMoves(r1, cmd, during);
      GuidedMoveRaisesRank(r1, cmd, during, r2, EffectOf(cmd, during, r1).ok);
      RefreshKeepsStatus(r2, after);
    }
  }

  datatype Envs = Envs(before: Env, during: Env, after: Env)

  /** Repeated `advance` calls, counting those that advanced. */
  function AdvanceAll(r: Run, envs: seq<Envs>): (Run, nat) {
    if envs == [] then (r, 0)
    else
      var (r1, n) := AdvanceAll(r, envs[..|envs| - 1]);
      var last := envs[|envs| - 1];
      var a := Advance(r1, last.before, last.during, last.after);
      (a.run, n + if a.advanced then 1 else 0)
  }

  /** However often it is called, `advance` advances a run at most fourteen times. */
  lemma {:induction false} AdvanceBounded(r: Run, envs: seq<Envs>)
    ensures var (r', n) := AdvanceAll(r, envs); Rank(r.status) + n <= Rank(r'.status) <= 14
  {
    if envs != [] {
      AdvanceBounded(r, envs[..|envs| - 1]);
      var (r1, n) := AdvanceAll(r, envs[..|envs| - 1]);
      var last := envs[|envs| - 1];
      AdvanceRaisesRank(r1, last.before, last.during, last.after);
    }
  }

  // ----- challenge dispatch -----

  /** What a challenge dispatch needs besides resources, all of it readable before the call. */
  predicate Renderable(r: Run, env: Env) {
    && r.status.SynthesisReady? && r.synthesis.Some? && r.synthesis.value.required
    && r.rounds == [] && r.experts != [] && r.maxChallenge > 0 && env.briefExists
    && forall x :: x in SelectChallengeExperts(r) ==> x in env.knownExperts
  }

  lemma SelectedWithinCap(r: Run)
    requires r.synthesis.Some?
    ensures var ids := SelectChallengeExperts(r);
      && (ids != [] <==> r.experts != [] && r.maxChallenge > 0)
      && |Members(ids)| <= r.maxChallenge && forall x :: x in ids ==> x in r.experts
  {
    var ids, candidates := SelectChallengeExperts(r), KeepIn(r.synthesis.value.candidates, Members(r.experts));
    DedupeNames(ids);
    assert candidates != [] ==> candidates[0] in candidates;
    assert r.experts == [] ==> forall x :: x !in candidates;
  }

  lemma RendersSelectedIff(r: Run, env: Env)
    requires r.status.SynthesisReady? && r.synthesis.Some? && r.synthesis.value.required
    ensures RenderChallengeEffect(r, env, SelectChallengeExperts(r)).ok <==> Renderable(r, env)
  {
    SelectedWithinCap(r);
    ChallengeRendersIff(r, env, SelectChallengeExperts(r));
  }

  /** The dispatch of a rendered round: the resource guard decides, the round stays either way. */
  lemma RenderedDispatch(r: Run, env: Env)
    requires Renderable(r, env)
    ensures var e := EffectOf(DispatchChallenge, env, r); var ids := SelectChallengeExperts(r);
      var rendered := After(r, RenderChallengeEffect(r, env, ids));
      && (e.ok <==> ResourcesAllow(r, env, 0))
      && After(r, e) == if e.ok then rendered.(agents := Register(r.agents, Challenge, ids),
                                               status := ChallengeDispatchReady) else rendered
  {
    RendersSelectedIff(r, env);
    ChallengeRendersIff(r, env, SelectChallengeExperts(r));
  }

  lemma UnrenderedDispatch(r: Run, env: Env)
    requires !Renderable(r, env)
    ensures EffectOf(DispatchChallenge, env, r) == REFUSED
  {
    if r.status.SynthesisReady? && r.synthesis.Some? && r.synthesis.value.required {
      RendersSelectedIff(r, env);
    }
  }

  /** `dispatch-challenge` succeeds exactly when the challenge is renderable and resources allow. It fails and still
      changes the run exactly when only resources are missing: then the round and an intermediate status stay
      behind. */
  lemma ChallengeDispatchIff(r: Run, env: Env)
    ensures var e := EffectOf(DispatchChallenge, env, r); var r' := Perform(r, Step(DispatchChallenge, env));
      && (e.ok <==> Renderable(r, env) && ResourcesAllow(r, env, 0))
      && (!e.ok && r' != r <==> Renderable(r, env) && !ResourcesAllow(r, env, 0))
      && (!e.ok && r' != r ==> r'.status.ChallengePromptsRendered? && |r'.rounds| == 1)
  {
    if Renderable(r, env) {
      RenderedDispatch(r, env);
      ChallengeRendersIff(r, env, SelectChallengeExperts(r));
      RendersSelectedIff(r, env);
    } else {
      UnrenderedDispatch(r, env);
    }
  }

  /** A successful dispatch registers a non-empty round of selected experts within the cap, each with a fresh record. */
  lemma ChallengeDispatchRegisters(r: Run, env: Env)
    requires EffectOf(DispatchChallenge, env, r).ok
    ensures var r' := Perform(r, Step(DispatchChallenge, env));
      && r'.status.ChallengeDispatchReady?
      && |r'.rounds| == 1 && r'.rounds[0] != [] && |r'.rounds[0]| <= r.maxChallenge
      && forall x :: x in r'.rounds[0] ==>
         x in r.experts && (Challenge, x) in r'.agents && r'.agents[(Challenge, x)] == Expected
  {
    ChallengeDispatchIff(r, env);
    RenderedDispatch(r, env);
    RendersSelectedIff(r, env);
    ChallengeRendersIff(r, env, SelectChallengeExperts(r));
    SelectedWithinCap(r);
    RegisterRecords(r.agents, Challenge, SelectChallengeExperts(r));
    assert SelectChallengeExperts(r)[0] in Members(SelectChallengeExperts(r));
    assert forall x :: x in Perform(r, Step(DispatchChallenge, env)).rounds[0] ==>
      x in Members(Perform(r, Step(DispatchChallenge, env)).rounds[0]);
  }

  lemma StrandedMove(r: Run, cmd: Command, env: Env, r': Run, ok: bool)
    requires r.status in {ChallengePromptsRendered, Blocked, Cancelled} && !Unguarded(cmd) && Moves(r, cmd, env, r', ok)
    ensures r'.status in {ChallengePromptsRendered, Blocked, Cancelled}
  {
  }

  /** From there only finalising as blocked or cancelled, or an unguarded command, changes the status. */
  lemma {:induction false} StrandedStays(r: Run, steps: seq<Step>)
    requires r.status.ChallengePromptsRendered? && forall k :: 0 <= k < |steps| ==> !Unguarded(steps[k].cmd)
    ensures Exec(r, steps).status in {ChallengePromptsRendered, Blocked, Cancelled}
  {
    if steps != [] {
      var before := Exec(r, steps[..|steps| - 1]);
      StrandedStays(r, steps[..|steps| - 1]);
      var last := steps[|steps| - 1];
      StepMoves(before, last.cmd, last.env);
      StrandedMove(before, last.cmd, last.env, Perform(before, last), EffectOf(last.cmd, last.env, before).ok);
    }
  }

  /** `mark-decision-ready` succeeds exactly when evidence and trace are clean and the status is one of two; whether a
      challenge is required plays no part. */
  lemma DecisionReadyIff(r: Run, env: Env)
    ensures EffectOf(MarkDecisionReady, env, r).ok <==>
      NavReady(r, env) && Decided(env) && r.status in {SynthesisReady, ChallengeCollected}
  {
    assert Trace(env) == Traceability([], []) <==> Unresolved(env.items) == [] && Unreferenced(env.items) == [];
  }

  /** So a required challenge can be skipped: the decision is accepted while no round was ever recorded. */
  lemma RequiredChallengeCanBeSkipped(r: Run, env: Env)
    requires r.status.SynthesisReady? && r.challengeRequired && r.rounds == [] && NavReady(r, env) && Decided(env)
    ensures var r' := Perform(r, Step(MarkDecisionReady, env));
            r'.status.DecisionReady? && r'.challengeRequired && r'.rounds == []
  {
    DecisionReadyIff(r, env);
  }

  // ----- agent events -----

  /** Starting an agent succeeds exactly in its phase, for a dispatched expert, within the cap; only its record and
      the status change. */
  lemma AgentStartedIff(r: Run, env: Env, phase: Phase, expert: Id)
    ensures var e := EffectOf(AgentStarted(phase, expert), env, r);
      && (e.ok <==> r.status in PhaseAllowed(phase) && (phase, expert) in r.agents && env.memoryOk
                    && |ActiveAgents(r.agents) + {(phase, expert)}| <= env.maxActive)
      && (e.ok ==> After(r, e) == r.(status := StartedStatus(phase), agents := r.agents[(phase, expert) := Active]))
      && (!e.ok ==> After(r, e) == r)
  {
    WaitsForAllowed(r.status, phase);
    var key := (phase, expert);
    if key in r.agents {
      assert r.agents[key] == Active <==> key in ActiveAgents(r.agents);
      if r.agents[key] == Active {
        assert ActiveAgents(r.agents) + {key} == ActiveAgents(r.agents);
      }
    }
  }

  /** Completing an agent settles it, and leaves everyone else's record and failures alone. */
  lemma AgentCompletedSettles(r: Run, env: Env, phase: Phase, expert: Id)
    requires EffectOf(AgentCompleted(phase, expert), env, r).ok
    ensures var r' := Perform(r, Step(AgentCompleted(phase, expert), env));
            SettledAgent(r', phase, expert) && SameBut(r, r', phase, [expert]) && r'.status == r.status
  {
    CompletedFrame(r, phase, [expert], expert);
  }

  lemma StepKeepsAgentFailure(r: Run, step: Step, f: Failure)
    requires f in r.failures && f.kind.FailedAgent?
    ensures f in Perform(r, step).failures
  {
    match step.cmd
    case ValidateResponses(phase) => ValidateKeepsAgentFailure(r, step.env, phase, ExpectedIds(r, phase), 0, f);
    case DispatchChallenge => ChallengeKeepsFailures(r, step.env);
    case _ =>
  }

  lemma ChallengeKeepsFailures(r: Run, env: Env)
    ensures Perform(r, Step(DispatchChallenge, env)).failures == r.failures
  {
  }

  lemma {:induction false} ValidateKeepsAgentFailure(r: Run, env: Env, phase: Phase, ids: seq<Id>, k: nat, f: Failure)
    requires k <= |ids| && f in r.failures && f.kind.FailedAgent?
    ensures f in After(r, ValidateFrom(r, env, phase, ids, k)).failures
    decreases |ids| - k
  {
    if k == |ids| {
      LastStep(r, env, phase, ids);
    } else if Accepts(r, env, phase, ids[k]) {
      AcceptedStep(r, env, phase, ids, k);
      ValidateKeepsAgentFailure(MarkCompleted(r, phase, ids[k]), env, phase, ids, k + 1, f);
    } else {
      RejectedStep(r, env, phase, ids, k);
    }
  }

  /** No command ever clears a recorded agent failure, not even that agent's later completion: from then on the guide
      proposes nothing and `advance` never advances again. */
  lemma {:induction false} AgentFailureBlocksGuide(r: Run, steps: seq<Step>, f: Failure)
    requires f in r.failures && f.kind.FailedAgent?
    ensures f in Exec(r, steps).failures && NextCommand(Exec(r, steps)).None?
  {
    if steps != [] {
      AgentFailureBlocksGuide(r, steps[..|steps| - 1], f);
      StepKeepsAgentFailure(Exec(r, steps[..|steps| - 1]), steps[|steps| - 1], f);
    }
  }

  lemma AgentFailedRecords(r: Run, env: Env, phase: Phase, expert: Id)
    requires AgentEventAllowed(r, phase, expert)
    ensures var r' := Perform(r, Step(AgentFailed(phase, expert), env));
      && r'.agents[(phase, expert)] == Failed && Failure(phase, expert, FailedAgent) in r'.failures
      && SameBut(r, r', phase, [expert])
  {
  }

  // ----- synthesis and challenge -----

  /** Some expert's valid response blocks, challenges a recommendation or is uncertain. */
  ghost predicate Contested(r: Run, env: Env) {
    exists x :: x in r.experts && ResponseOf(env, Expert, x).Some?
      && var a := ResponseOf(env, Expert, x).value; Blocking(a) || a.challenged || a.uncertain
  }

  lemma HavingNonEmptyIff(env: Env, ids: seq<Id>, property: Response -> bool)
    ensures Having(env, Expert, ids, property) != [] <==>
      exists x :: x in ids && ResponseOf(env, Expert, x).Some? && property(ResponseOf(env, Expert, x).value)
  {
    NonEmptyMember(Having(env, Expert, ids, property));
  }

  /** A challenge is required by an automatic policy, or by a conditional one with a contested response. */
  lemma ChallengeRequiredIff(r: Run, env: Env)
    ensures BuildSynthesis(r, env).required <==> r.policy.Auto? || (r.policy.Conditional? && Contested(r, env))
  {
    HavingNonEmptyIff(env, r.experts, Blocking);
    HavingNonEmptyIff(env, r.experts, Challenges);
    HavingNonEmptyIff(env, r.experts, Uncertain);
  }

  /** The named candidates are selected experts within the cap, and there is one when a challenge can be held. */
  lemma CandidatesWithinCap(r: Run, env: Env)
    ensures var s := BuildSynthesis(r, env);
      && |s.candidates| <= r.maxChallenge
      && (forall x :: x in s.candidates ==> x in r.experts)
      && (s.required && r.experts != [] && r.maxChallenge > 0 ==> s.candidates != [])
  {
  }

  lemma NonEmptyMember(s: seq<Id>)
    ensures s != [] <==> exists x :: x in s
  {
    if s != [] {
      assert s[0] in s;
    }
  }
}

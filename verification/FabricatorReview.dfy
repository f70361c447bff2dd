/** What a completed run's review said. */
module FabricatorReview {
  import opened Options
  import opened FabricatorModel
  import opened FabricatorTheorems

  // ----- what a review collection records -----

  /** A valid review response that objects. */
  ghost predicate ObjectingReview(env: Env, id: Id) {
    && env.files(Review, id).json.Good?
    && (env.files(Review, id).json.response.verdict == VerdictBlock || env.files(Review, id).json.response.blockers)
  }

  lemma {:induction false} CollectionEnds(r: Run, env: Env, phase: Phase, ids: seq<Id>, k: nat)
    requires k <= |ids| && ValidateFrom(r, env, phase, ids, k).ok
    ensures After(r, ValidateFrom(r, env, phase, ids, k)).reviewBlockers ==
      if phase.Review? then Having(env, phase, ids, Blocking) else r.reviewBlockers
    decreases |ids| - k
  {
    if k < |ids| {
      AcceptedStep(r, env, phase, ids, k);
      CollectionEnds(MarkCompleted(r, phase, ids[k]), env, phase, ids, k + 1);
    }
  }

  lemma {:induction false} StoppedCollection(r: Run, env: Env, phase: Phase, ids: seq<Id>, k: nat)
    requires k <= |ids| && !ValidateFrom(r, env, phase, ids, k).ok
    ensures After(r, ValidateFrom(r, env, phase, ids, k)).reviewBlockers == r.reviewBlockers
    decreases |ids| - k
  {
    if k < |ids| {
      if Accepts(r, env, phase, ids[k]) {
        AcceptedStep(r, env, phase, ids, k);
        StoppedCollection(MarkCompleted(r, phase, ids[k]), env, phase, ids, k + 1);
      } else {
        RejectedStep(r, env, phase, ids, k);
      }
    }
  }

  /** A successful review collection records exactly the reviewers whose response blocks or lists a blocker; so it
      leaves none on record exactly when no reviewer's response does. */
  lemma ReviewRecords(r: Run, env: Env)
    requires EffectOf(ValidateResponses(Review), env, r).ok
    ensures var r' := Perform(r, Step(ValidateResponses(Review), env));
      && (forall id :: id in r'.reviewBlockers <==> id in r.reviewers && ObjectingReview(env, id))
      && (r'.reviewBlockers == [] <==> forall id :: id in r.reviewers ==> !ObjectingReview(env, id))
  {
    CollectionEnds(r, env, Review, r.reviewers, 0);
    var blockers := Having(env, Review, r.reviewers, Blocking);
    assert forall id :: id in blockers <==> id in r.reviewers && ObjectingReview(env, id);
    NonEmptyMember(blockers);
  }

  // ----- over runs -----

  /** Step c collected the review. */
  ghost predicate ReviewCollectedAt(r: Run, steps: seq<Step>, c: nat) {
    && c < |steps| && steps[c].cmd == ValidateResponses(Review)
    && EffectOf(steps[c].cmd, steps[c].env, At(r, steps, c)).ok
  }

  lemma ValidationBlockers(r: Run, env: Env, phase: Phase)
    requires !(phase.Review? && EffectOf(ValidateResponses(phase), env, r).ok)
    ensures Perform(r, Step(ValidateResponses(phase), env)).reviewBlockers == r.reviewBlockers
  {
    if CommandAllowed(r, ValidateResponses(phase)) && ExpectedIds(r, phase) != [] {
      if ValidateFrom(r, env, phase, ExpectedIds(r, phase), 0).ok {
        CollectionEnds(r, env, phase, ExpectedIds(r, phase), 0);
      } else {
        StoppedCollection(r, env, phase, ExpectedIds(r, phase), 0);
      }
    }
  }

  lemma ChallengeBlockers(r: Run, env: Env)
    ensures Perform(r, Step(DispatchChallenge, env)).reviewBlockers == r.reviewBlockers
  {
  }

  lemma ExpertDispatchBlockers(r: Run, env: Env)
    ensures After(r, DispatchExpertsEffect(r, env)).reviewBlockers == r.reviewBlockers
  {
  }

  lemma ReviewDispatchBlockers(r: Run, env: Env)
    ensures After(r, DispatchReviewEffect(r, env)).reviewBlockers == r.reviewBlockers
  {
  }

  lemma StartBlockers(r: Run, env: Env, phase: Phase, expert: Id)
    ensures After(r, AgentStartedEffect(r, env, phase, expert)).reviewBlockers == r.reviewBlockers
  {
  }

  lemma CompletionBlockers(r: Run, env: Env, phase: Phase, expert: Id)
    ensures After(r, AgentCompletedEffect(r, env, phase, expert)).reviewBlockers == r.reviewBlockers
  {
  }

  lemma FailedBlockers(r: Run, phase: Phase, expert: Id)
    ensures After(r, AgentFailedEffect(r, phase, expert)).reviewBlockers == r.reviewBlockers
  {
  }

  lemma SynthesisBlockers(r: Run, env: Env)
    ensures After(r, SynthesizeEffect(r, env)).reviewBlockers == r.reviewBlockers
  {
  }

  lemma DecisionBlockers(r: Run, env: Env)
    ensures After(r, DecisionEffect(r, env)).reviewBlockers == r.reviewBlockers
  {
  }

  lemma FinalizeBlockers(r: Run, result: Result)
    ensures After(r, FinalizeEffect(r, result)).reviewBlockers == r.reviewBlockers
  {
  }

  lemma RenderBlockers(r: Run, env: Env, ids: seq<Id>)
    ensures After(r, RenderChallengeEffect(r, env, ids)).reviewBlockers == r.reviewBlockers
  {
  }

  /** Only a successful review collection changes the recorded blockers. */
  lemma StepBlockers(r: Run, step: Step)
    requires !(step.cmd == ValidateResponses(Review) && EffectOf(step.cmd, step.env, r).ok)
    ensures Perform(r, step).reviewBlockers == r.reviewBlockers
  {
    match step.cmd
    case ValidateResponses(phase) => ValidationBlockers(r, step.env, phase);
    case DispatchChallenge => ChallengeBlockers(r, step.env);
    case DispatchExperts => ExpertDispatchBlockers(r, step.env);
    case DispatchReview => ReviewDispatchBlockers(r, step.env);
    case AgentStarted(phase, expert) => StartBlockers(r, step.env, phase, expert);
    case AgentCompleted(phase, expert) => CompletionBlockers(r, step.env, phase, expert);
    case AgentFailed(phase, expert) => FailedBlockers(r, phase, expert);
    case Synthesize => SynthesisBlockers(r, step.env);
    case MarkDecisionReady => DecisionBlockers(r, step.env);
    case Finalize(result) => FinalizeBlockers(r, result);
    case RenderChallengePrompts(ids) => RenderBlockers(r, step.env, ids);
    case _ =>
  }

  lemma BlockersKept(r: Run, steps: seq<Step>, k: nat)
    requires k < |steps| && !ReviewCollectedAt(r, steps, k)
    ensures At(r, steps, k + 1).reviewBlockers == At(r, steps, k).reviewBlockers
  {
    ExecSnoc(r, steps, k);
    StepBlockers(At(r, steps, k), steps[k]);
  }

  /** c is the last successful review collection before n. */
  ghost predicate LastReview(r: Run, steps: seq<Step>, c: nat, n: nat) {
    c < n && ReviewCollectedAt(r, steps, c) && forall k: nat :: c < k < n ==> !ReviewCollectedAt(r, steps, k)
  }

  /** The blockers on record are those of the last successful review collection. */
  lemma {:induction false} BlockersAreLast(r: Run, steps: seq<Step>, c: nat, n: nat)
    requires n <= |steps| && LastReview(r, steps, c, n)
    ensures At(r, steps, n).reviewBlockers == At(r, steps, c + 1).reviewBlockers
    decreases n
  {
    if c + 1 < n {
      BlockersAreLast(r, steps, c, n - 1);
      assert !ReviewCollectedAt(r, steps, n - 1);
      BlockersKept(r, steps, n - 1);
    }
  }

  /** Without any review collection none is on record. */
  lemma {:induction false} NoReviewNoBlockers(r: Run, steps: seq<Step>, n: nat)
    requires Initial(r) && n <= |steps| && forall k: nat :: k < n ==> !ReviewCollectedAt(r, steps, k)
    ensures At(r, steps, n).reviewBlockers == []
  {
    if n == 0 {
      assert steps[..0] == [];
    } else {
      NoReviewNoBlockers(r, steps, n - 1);
      assert !ReviewCollectedAt(r, steps, n - 1);
      BlockersKept(r, steps, n - 1);
    }
  }

  /** Step f completed the run. */
  ghost predicate CompletedAt(r: Run, steps: seq<Step>, f: nat) {
    && f < |steps| && steps[f].cmd == Finalize(ReadyForHumanReview)
    && !At(r, steps, f).status.Completed? && At(r, steps, f + 1).status.Completed?
  }

  /** Nobody reviewing at the last review collection before f objected. */
  ghost predicate ReviewClean(r: Run, steps: seq<Step>, f: nat) {
    forall c: nat :: LastReview(r, steps, c, f) && c < |steps| ==>
      forall id :: id in At(r, steps, c).reviewers ==> !ObjectingReview(steps[c].env, id)
  }

  /** In a completed run, the last successful review collection before its finalisation, if there was one, had no
      response with a blocking verdict or a blocker. */
  lemma CompletedReviewClean(r: Run, steps: seq<Step>) returns (f: nat)
    requires Initial(r) && Exec(r, steps).status.Completed?
    ensures CompletedAt(r, steps, f) && ReviewClean(r, steps, f)
  {
    assert steps[..|steps|] == steps;
    f := LastEntry(r, steps, {Completed}, |steps|);
    EntryFacts(r, steps, f);
    forall c: nat | LastReview(r, steps, c, f) && c < |steps|
      ensures forall id :: id in At(r, steps, c).reviewers ==> !ObjectingReview(steps[c].env, id)
    {
      BlockersAreLast(r, steps, c, f);
      ExecSnoc(r, steps, c);
      ReviewRecords(At(r, steps, c), steps[c].env);
    }
  }
}

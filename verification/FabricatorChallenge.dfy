/** Whether an accepted decision rests on a challenge. */
module FabricatorChallenge {
  import opened FabricatorModel
  import opened FabricatorTheorems
  import opened FabricatorHistory
  import opened FabricatorFailures

  // ----- the recorded round never changes -----

  lemma {:induction false} ChainKeepsRound(log: seq<Run>, k: nat)
    requires Chained(log) && k < |log| && log[0].rounds != []
    ensures log[k].rounds == log[0].rounds
  {
    if k > 0 {
      ChainKeepsRound(log, k - 1);
      assert WriteFollows(log[k - 1], log[k]);
    }
  }

  lemma StepKeepsRound(r: Run, step: Step)
    requires r.rounds != []
    ensures Perform(r, step).rounds == r.rounds
  {
    var log := [r] + EffectOf(step.cmd, step.env, r).writes;
    WritesChained(r, step);
    ChainKeepsRound(log, |log| - 1);
    assert log[|log| - 1] == Perform(r, step);
  }

  lemma {:induction false} RoundKept(r: Run, steps: seq<Step>, k: nat, n: nat)
    requires k <= n <= |steps| && At(r, steps, k).rounds != []
    ensures At(r, steps, n).rounds == At(r, steps, k).rounds
    decreases n
  {
    if k < n {
      RoundKept(r, steps, k, n - 1);
      ExecSnoc(r, steps, n - 1);
      StepKeepsRound(At(r, steps, n - 1), steps[n - 1]);
    }
  }

  // ----- challenge collections -----

  /** Step c collected the challenge: every answer of the recorded round was present and valid. */
  ghost predicate ChallengeCollectedAt(r: Run, steps: seq<Step>, c: nat) {
    && c < |steps| && steps[c].cmd == ValidateResponses(Challenge)
    && EffectOf(steps[c].cmd, steps[c].env, At(r, steps, c)).ok
    && |At(r, steps, c).rounds| == 1 && AllGood(steps[c].env, Challenge, At(r, steps, c).rounds[0], 0)
  }

  lemma CollectsRound(r: Run, steps: seq<Step>, c: nat)
    requires Initial(r) && c < |steps| && steps[c].cmd == ValidateResponses(Challenge)
    requires EffectOf(steps[c].cmd, steps[c].env, At(r, steps, c)).ok
    ensures ChallengeCollectedAt(r, steps, c) && At(r, steps, c).status in PhaseAllowed(Challenge)
    ensures At(r, steps, c + 1).status.ChallengeCollected? && At(r, steps, c + 1).status !in Ahead(Challenge)
  {
    ValidateIff(r, steps[..c], Challenge, steps[c].env);
    AlwaysDispatched(r, steps[..c]);
    EntryAt(r, steps, c);
  }

  /** After a challenge collection the status is never again one with the challenge still ahead. */
  lemma {:induction false} ChallengeBehind(r: Run, steps: seq<Step>, k: nat, n: nat)
    requires k <= n <= |steps| && At(r, steps, k).status !in Ahead(Challenge)
    ensures At(r, steps, n).status !in Ahead(Challenge)
    decreases n
  {
    if k < n {
      ChallengeBehind(r, steps, k, n - 1);
      ExecSnoc(r, steps, n - 1);
      StepKeepsWindowClosed(At(r, steps, n - 1), steps[n - 1], Challenge);
    }
  }

  lemma EntersChallengeCollected(a: Run, cmd: Command, env: Env, b: Run, ok: bool)
    requires Moves(a, cmd, env, b, ok) && b.status.ChallengeCollected? && !a.status.ChallengeCollected?
    ensures cmd == ValidateResponses(Challenge) && ok
  {
  }

  lemma LastCollection(r: Run, steps: seq<Step>, n: nat) returns (c: nat)
    requires Initial(r) && n <= |steps| && At(r, steps, n).status.ChallengeCollected?
    ensures c < n && ChallengeCollectedAt(r, steps, c) && At(r, steps, c).status in PhaseAllowed(Challenge)
  {
    c := LastEntry(r, steps, {ChallengeCollected}, n);
    EntryAt(r, steps, c);
    EntersChallengeCollected(At(r, steps, c), steps[c].cmd, steps[c].env, At(r, steps, c + 1),
                             EffectOf(steps[c].cmd, steps[c].env, At(r, steps, c)).ok);
    CollectsRound(r, steps, c);
  }

  // ----- decisions -----

  /** Step d is an accepted decision. */
  ghost predicate AcceptedDecision(r: Run, steps: seq<Step>, d: nat) {
    d < |steps| && steps[d].cmd == MarkDecisionReady && EffectOf(steps[d].cmd, steps[d].env, At(r, steps, d)).ok
  }

  /** Between synthesis and decision the recorded round, the one the decision sees, was answered in full. */
  ghost predicate ChallengeHeld(r: Run, steps: seq<Step>, v: nat, s: nat, c: nat, d: nat) {
    && v < s < c < d && d < |steps|
    && ValidatedAt(r, steps, v) && SynthesisedAt(r, steps, s) && ChallengeCollectedAt(r, steps, c)
    && At(r, steps, d).rounds == At(r, steps, c).rounds
  }

  ghost predicate RestsOnChallenge(r: Run, steps: seq<Step>, d: nat) {
    exists v: nat, s: nat, c: nat :: ChallengeHeld(r, steps, v, s, c, d)
  }

  ghost predicate ChallengedBefore(r: Run, steps: seq<Step>, d: nat) {
    exists c: nat :: c < d && ChallengeCollectedAt(r, steps, c)
  }

  lemma CollectedRests(r: Run, steps: seq<Step>, d: nat)
    requires Initial(r) && d < |steps| && At(r, steps, d).status.ChallengeCollected?
    ensures RestsOnChallenge(r, steps, d)
  {
    var c := LastCollection(r, steps, d);
    var v, s := SynthesisedBefore(r, steps, c);
    RoundKept(r, steps, c, d);
    assert ChallengeHeld(r, steps, v, s, c, d);
  }

  lemma ChallengedIsPast(r: Run, steps: seq<Step>, d: nat)
    requires Initial(r) && d < |steps| && ChallengedBefore(r, steps, d)
    ensures At(r, steps, d).status !in Ahead(Challenge)
  {
    var c: nat :| c < d && ChallengeCollectedAt(r, steps, c);
    CollectsRound(r, steps, c);
    ChallengeBehind(r, steps, c + 1, d);
  }

  /** An accepted decision taken from `challenge-collected` rests on an answered challenge; one taken from
      `synthesis-ready` is exactly one without any, so that is when a required challenge is skipped. */
  lemma ChallengeSkippedIff(r: Run, steps: seq<Step>, d: nat)
    requires Initial(r) && AcceptedDecision(r, steps, d)
    ensures At(r, steps, d).status.ChallengeCollected? <==> RestsOnChallenge(r, steps, d)
    ensures At(r, steps, d).status.SynthesisReady? <==> !ChallengedBefore(r, steps, d)
  {
    DecisionReadyIff(At(r, steps, d), steps[d].env);
    if At(r, steps, d).status.ChallengeCollected? {
      CollectedRests(r, steps, d);
    }
    if ChallengedBefore(r, steps, d) {
      ChallengedIsPast(r, steps, d);
    }
  }

  /** A completed run has an accepted decision that rests on an answered challenge or was taken from
      `synthesis-ready`. */
  lemma CompletedDecision(r: Run, steps: seq<Step>) returns (d: nat)
    requires Initial(r) && Exec(r, steps).status.Completed?
    ensures AcceptedDecision(r, steps, d)
    ensures RestsOnChallenge(r, steps, d) || At(r, steps, d).status.SynthesisReady?
  {
    assert steps[..|steps|] == steps;
    d := LastEntry(r, steps, AFTER_DECISION, |steps|);
    EntryFacts(r, steps, d);
    EntryAt(r, steps, d);
    DecisionReadyIff(At(r, steps, d), steps[d].env);
    ChallengeSkippedIff(r, steps, d);
  }
}

/** What the successive contents of run.json obey, and the record of commands behind them. */
module FabricatorHistory {
  import opened Options
  import opened FabricatorModel
  import opened FabricatorTheorems

  // ----- the status graph of single writes -----

  /** Where a guarded write can take the status, apart from ending the run as blocked or cancelled. */
  function Successors(status: Status): set<Status> {
    match status
    case Started => {ExpertDispatchReady}
    case ExpertDispatchReady => {ExpertAgentsStarted, ExpertCollected}
    case ExpertAgentsStarted => {ExpertCollected}
    case ExpertCollected => {SynthesisReady}
    case SynthesisReady => {DecisionReady}
    case ChallengePromptsRendered => {ChallengeDispatchReady}
    case ChallengeDispatchReady => {ChallengeAgentsStarted, ChallengeCollected}
    case ChallengeAgentsStarted => {ChallengeCollected}
    case ChallengeCollected => {DecisionReady}
    case DecisionReady => {ImplementationReady, ReviewDispatchReady, Completed}
    case ImplementationReady => {ReviewDispatchReady, Completed}
    case ReviewDispatchReady => {ReviewAgentStarted, ReviewCollected}
    case ReviewAgentStarted => {ReviewCollected}
    case ReviewCollected => {ReviewAgentStarted, Completed}
    case Completed => {}
    case Blocked => {}
    case Cancelled => {}
    case PromptsRendered => {}
  }

  predicate RecordsRound(a: Run, b: Run) {
    a.rounds == [] && |b.rounds| == 1 && b.status.ChallengePromptsRendered?
  }

  predicate StatusMoves(a: Run, b: Run) {
    || b.status == a.status || b.status in Successors(a.status)
    || (a.status !in TERMINAL && b.status in {Blocked, Cancelled})
    || b.status.PromptsRendered? || RecordsRound(a, b)
  }

  /** One write after another: the plan of the run never changes, the one challenge round is recorded with its status,
      and the status follows the graph. */
  predicate WriteFollows(a: Run, b: Run) {
    && b.mode == a.mode && b.policy == a.policy && b.experts == a.experts && b.maxChallenge == a.maxChallenge
    && b.navRequired == a.navRequired
    && (b.rounds == a.rounds || RecordsRound(a, b))
    && StatusMoves(a, b)
  }

  ghost predicate Chained(log: seq<Run>) {
    forall k :: 0 < k < |log| ==> WriteFollows(log[k - 1], log[k])
  }

  lemma ChainedAppend(a: seq<Run>, b: seq<Run>)
    requires a != [] && Chained(a) && Chained([a[|a| - 1]] + b)
    ensures Chained(a + b)
  {
    var ab, tail := a + b, [a[|a| - 1]] + b;
    forall k | 0 < k < |ab| ensures WriteFollows(ab[k - 1], ab[k]) {
      if k < |a| {
        assert WriteFollows(a[k - 1], a[k]);
      } else {
        assert WriteFollows(tail[k - |a|], tail[k - |a| + 1]);
      }
    }
  }

  lemma ChainedOne(r: Run, a: Run)
    requires WriteFollows(r, a)
    ensures Chained([r] + [a])
  {
  }

  lemma ChainedTwo(r: Run, a: Run, b: Run)
    requires WriteFollows(r, a) && WriteFollows(a, b)
    ensures Chained([r] + [a, b])
  {
  }

  lemma CollectedChained(r: Run, env: Env, phase: Phase, ids: seq<Id>)
    requires r.status in PhaseAllowed(phase)
    ensures Chained([r] + ValidateFrom(r, env, phase, ids, |ids|).writes)
  {
  }

  lemma RejectedChained(r: Run, env: Env, phase: Phase, ids: seq<Id>, k: nat)
    requires k < |ids| && !Accepts(r, env, phase, ids[k])
    ensures Chained([r] + ValidateFrom(r, env, phase, ids, k).writes)
  {
  }

  lemma AcceptedWrites(r: Run, env: Env, phase: Phase, ids: seq<Id>, k: nat)
    requires k < |ids| && Accepts(r, env, phase, ids[k])
    ensures var done := MarkCompleted(r, phase, ids[k]);
      && [r] + ValidateFrom(r, env, phase, ids, k).writes ==
         [r] + [done] + ValidateFrom(done, env, phase, ids, k + 1).writes
      && Chained([r] + [done]) && done.status == r.status
  {
  }

  lemma {:induction false} ValidateChained(r: Run, env: Env, phase: Phase, ids: seq<Id>, k: nat)
    requires k <= |ids| && r.status in PhaseAllowed(phase)
    ensures Chained([r] + ValidateFrom(r, env, phase, ids, k).writes)
    decreases |ids| - k
  {
    if k == |ids| {
      CollectedChained(r, env, phase, ids);
    } else if Accepts(r, env, phase, ids[k]) {
      var done := MarkCompleted(r, phase, ids[k]);
      AcceptedWrites(r, env, phase, ids, k);
      ValidateChained(done, env, phase, ids, k + 1);
      ChainedAppend([r] + [done], ValidateFrom(done, env, phase, ids, k + 1).writes);
    } else {
      RejectedChained(r, env, phase, ids, k);
    }
  }

  lemma ValidationChained(r: Run, env: Env, phase: Phase)
    ensures Chained([r] + ValidateEffect(r, env, phase).writes)
  {
    if CommandAllowed(r, ValidateResponses(phase)) {
      ValidateChained(r, env, phase, ExpectedIds(r, phase), 0);
    }
  }

  lemma RenderingChained(r: Run, env: Env, ids: seq<Id>)
    ensures Chained([r] + RenderChallengeEffect(r, env, ids).writes)
  {
    ChallengeRendersIff(r, env, ids);
  }

  /** The writes of a challenge dispatch: none, the rendered round, or the round and its dispatch. */
  lemma ChallengeWrites(r: Run, env: Env)
    ensures var writes := EffectOf(DispatchChallenge, env, r).writes; var ids := SelectChallengeExpertsOrNone(r);
      var rendered := After(r, RenderChallengeEffect(r, env, ids));
      || writes == [] || writes == RenderChallengeEffect(r, env, ids).writes == [rendered]
      || (RenderChallengeEffect(r, env, ids).writes == [rendered]
          && writes == [rendered, rendered.(agents := Register(rendered.agents, Challenge, ids),
                                            status := ChallengeDispatchReady)])
  {
  }

  function SelectChallengeExpertsOrNone(r: Run): seq<Id> {
    if r.synthesis.Some? then SelectChallengeExperts(r) else []
  }

  /** A rendered round follows the run, and its dispatch follows the rendered round. */
  lemma RenderedFollows(r: Run, env: Env, ids: seq<Id>, rendered: Run)
    requires RenderChallengeEffect(r, env, ids).writes == [rendered]
    ensures WriteFollows(r, rendered)
    ensures WriteFollows(rendered, rendered.(agents := Register(rendered.agents, Challenge, ids),
                                             status := ChallengeDispatchReady))
  {
    ChallengeRendersIff(r, env, ids);
  }

  lemma ChallengeChained(r: Run, env: Env)
    ensures Chained([r] + EffectOf(DispatchChallenge, env, r).writes)
  {
    var ids := SelectChallengeExpertsOrNone(r);
    var rendered := After(r, RenderChallengeEffect(r, env, ids));
    ChallengeWrites(r, env);
    if EffectOf(DispatchChallenge, env, r).writes != [] {
      RenderedFollows(r, env, ids, rendered);
      ChainedOne(r, rendered);
      ChainedTwo(r, rendered, rendered.(agents := Register(rendered.agents, Challenge, ids),
                                        status := ChallengeDispatchReady));
    }
  }

  lemma ExpertDispatchChained(r: Run, env: Env)
    ensures Chained([r] + DispatchExpertsEffect(r, env).writes)
  {
  }

  lemma ReviewDispatchChained(r: Run, env: Env)
    ensures Chained([r] + DispatchReviewEffect(r, env).writes)
  {
  }

  lemma StartChained(r: Run, env: Env, phase: Phase, expert: Id)
    ensures Chained([r] + AgentStartedEffect(r, env, phase, expert).writes)
  {
  }

  lemma CompletionChained(r: Run, env: Env, phase: Phase, expert: Id)
    ensures Chained([r] + AgentCompletedEffect(r, env, phase, expert).writes)
  {
  }

  lemma FailureChained(r: Run, phase: Phase, expert: Id)
    ensures Chained([r] + AgentFailedEffect(r, phase, expert).writes)
  {
  }

  lemma DecisionChained(r: Run, env: Env)
    ensures Chained([r] + DecisionEffect(r, env).writes)
  {
  }

  lemma SynthesisChained(r: Run, env: Env)
    ensures Chained([r] + SynthesizeEffect(r, env).writes)
  {
  }

  lemma FinalizeChained(r: Run, result: Result)
    ensures Chained([r] + FinalizeEffect(r, result).writes)
  {
  }

  lemma RefreshChained(r: Run, navReady: bool, failures: set<Failure>, always: bool)
    ensures Chained([r] + RefreshEffect(r, r.(navReady := navReady, failures := failures), always).writes)
  {
  }

  /** Every write of every command follows the status graph. */
  lemma WritesChained(r: Run, step: Step)
    ensures Chained([r] + EffectOf(step.cmd, step.env, r).writes)
  {
    match step.cmd
    case RenderPrompts =>
    case RenderChallengePrompts(ids) => RenderingChained(r, step.env, ids);
    case DispatchExperts => ExpertDispatchChained(r, step.env);
    case ValidateResponses(phase) => ValidationChained(r, step.env, phase);
    case Synthesize => SynthesisChained(r, step.env);
    case DispatchChallenge => ChallengeChained(r, step.env);
    case TraceDecision =>
    case MarkDecisionReady => DecisionChained(r, step.env);
    case MarkImplementationReady =>
    case DispatchReview => ReviewDispatchChained(r, step.env);
    case AgentStarted(phase, expert) => StartChained(r, step.env, phase, expert);
    case AgentCompleted(phase, expert) => CompletionChained(r, step.env, phase, expert);
    case AgentFailed(phase, expert) => FailureChained(r, phase, expert);
    case AgentTimeouts => RefreshChained(r, r.navReady, CollectFailures(r, step.env), false);
    case NextStep => RefreshChained(r, NavReady(r, step.env), CollectFailures(r, step.env), true);
    case Summary => RefreshChained(r, NavReady(r, step.env), CollectFailures(r, step.env), false);
    case Finalize(result) => FinalizeChained(r, result);
  }

  // ----- started agents -----

  /** The cap met by the last agent start that succeeded; 0 when none did. */
  ghost function LastStartCap(r: Run, steps: seq<Step>): nat {
    if steps == [] then 0
    else
      var front, last := steps[..|steps| - 1], steps[|steps| - 1];
      if last.cmd.AgentStarted? && EffectOf(last.cmd, last.env, Exec(r, front)).ok then last.env.maxActive
      else LastStartCap(r, front)
  }

  lemma StepActivates(r: Run, step: Step)
    ensures if step.cmd.AgentStarted? && EffectOf(step.cmd, step.env, r).ok
            then |ActiveAgents(Perform(r, step).agents)| <= step.env.maxActive
            else ActiveAgents(Perform(r, step).agents) <= ActiveAgents(r.agents)
  {
    if step.cmd.AgentStarted? {
      AgentStartedIff(r, step.env, step.cmd.phase, step.cmd.expert);
      if EffectOf(step.cmd, step.env, r).ok {
        assert ActiveAgents(Perform(r, step).agents) == ActiveAgents(r.agents) + {(step.cmd.phase, step.cmd.expert)};
      }
    } else if EffectOf(step.cmd, step.env, r).writes != [] {
      OthersActivateNone(r, step, Perform(r, step));
    }
  }

  /** However the policy changes over a run, no more agents are started than the last successful start allowed. */
  lemma {:induction false} ActiveWithinLastStartCap(r: Run, steps: seq<Step>)
    requires Initial(r)
    ensures |ActiveAgents(Exec(r, steps).agents)| <= LastStartCap(r, steps)
  {
    if steps == [] {
      assert ActiveAgents(r.agents) == {};
    } else {
      var before := Exec(r, steps[..|steps| - 1]);
      ActiveWithinLastStartCap(r, steps[..|steps| - 1]);
      StepActivates(before, steps[|steps| - 1]);
      if ActiveAgents(Exec(r, steps).agents) <= ActiveAgents(before.agents) {
        SubsetSize(ActiveAgents(Exec(r, steps).agents), ActiveAgents(before.agents));
      }
    }
  }

  // ----- the record of a run directory -----

  function Last(log: seq<Run>): Run
    requires log != []
  {
    log[|log| - 1]
  }

  /** The log starts with a fresh run, ends with what the recorded commands make of it, and follows the status graph;
      everyone a phase waits for is dispatched, no entry holds two rounds, the started agents fit the last cap. */
  ghost predicate Recorded(log: seq<Run>, history: seq<Step>) {
    && log != [] && Initial(log[0]) && Last(log) == Exec(log[0], history)
    && Chained(log) && (forall w :: w in log ==> |w.rounds| <= 1)
    && Dispatched(Last(log))
    && |ActiveAgents(Last(log).agents)| <= LastStartCap(log[0], history)
  }

  lemma {:induction false} ChainedRounds(log: seq<Run>, k: nat)
    requires Chained(log) && k < |log| && |log[0].rounds| <= 1
    ensures |log[k].rounds| <= 1
  {
    if k > 0 {
      ChainedRounds(log, k - 1);
      assert WriteFollows(log[k - 1], log[k]);
    }
  }

  lemma RecordStart(run: Run)
    requires Initial(run)
    ensures Recorded([run], [])
  {
    assert ActiveAgents(run.agents) == {};
  }

  /** A finished command extends the record by its writes. */
  lemma RecordStep(log: seq<Run>, history: seq<Step>, step: Step)
    requires Recorded(log, history)
    ensures Recorded(log + EffectOf(step.cmd, step.env, Last(log)).writes, history + [step])
  {
    var writes := EffectOf(step.cmd, step.env, Last(log)).writes;
    var log', history' := log + writes, history + [step];
    assert history'[..|history|] == history;
    assert log'[0] == log[0];
    assert Last(log') == Perform(Last(log), step);
    WritesChained(Last(log), step);
    ChainedAppend(log, writes);
    forall w | w in log' ensures |w.rounds| <= 1 {
      var k :| 0 <= k < |log'| && log'[k] == w;
      ChainedRounds(log', k);
    }
    AlwaysDispatched(log[0], history');
    ActiveWithinLastStartCap(log[0], history');
  }

  /** A recorded run that is completed has passed its milestones. */
  lemma RecordedCompletion(log: seq<Run>, history: seq<Step>)
    requires Recorded(log, history) && Last(log).status.Completed?
    ensures exists v, s, d, f :: Milestones(log[0], history, v, s, d, f)
  {
    CompletedPassedMilestones(log[0], history);
  }

  /** One that is past its decision has validated, synthesised and decided, in this order. */
  ghost predicate PassedDecision(first: Run, history: seq<Step>) {
    exists v, s, d :: DecisionPath(first, history, v, s, d)
  }

  ghost predicate DecisionPath(first: Run, history: seq<Step>, v: nat, s: nat, d: nat) {
    v < s < d < |history| && ValidatedAt(first, history, v) && SynthesisedAt(first, history, s) && DecidedAt(history, d)
  }

  lemma RecordedDecision(log: seq<Run>, history: seq<Step>)
    requires Recorded(log, history) && Last(log).status in AFTER_DECISION
    ensures PassedDecision(log[0], history)
  {
    assert history[..|history|] == history;
    var v, s, d := DecidedBefore(log[0], history, |history|);
    assert DecisionPath(log[0], history, v, s, d);
  }

  // ----- a collection in progress -----

  /** What is logged plus what is still to be written makes up the whole effect. */
  ghost predicate Pending(log: seq<Run>, start: seq<Run>, run0: Run, whole: Effect, run: Run, rest: Effect) {
    && log + rest.writes == start + whole.writes
    && whole.ok == rest.ok
    && After(run, rest) == After(run0, whole)
  }

  lemma PendingNext(log: seq<Run>, start: seq<Run>, run0: Run, whole: Effect, run: Run, done: Run, rest: Effect)
    requires Pending(log, start, run0, whole, run, Effect([done] + rest.writes, rest.ok))
    ensures Pending(log + [done], start, run0, whole, done, rest)
  {
    AfterCons(run, done, rest);
    assert log + ([done] + rest.writes) == log + [done] + rest.writes;
  }

  // ----- what a command's success means -----

  /** Everyone selected has a fresh expert record, and nobody else's changed. */
  lemma ExpertDispatchRegisters(r: Run, env: Env)
    requires EffectOf(DispatchExperts, env, r).ok
    ensures var r' := Perform(r, Step(DispatchExperts, env));
      && (forall x :: x in r.experts ==> (Expert, x) in r'.agents && r'.agents[(Expert, x)] == Expected)
      && (forall key :: key in r.agents && !(key.0.Expert? && key.1 in r.experts) ==>
         key in r'.agents && r'.agents[key] == r.agents[key])
  {
    RegisterRecords(r.agents, Expert, r.experts);
  }

  /** The one reviewer is a selected expert with a fresh review record. */
  lemma ReviewDispatchRegisters(r: Run, env: Env)
    requires EffectOf(DispatchReview, env, r).ok
    ensures var r' := Perform(r, Step(DispatchReview, env));
      && |r'.reviewers| == 1 && r'.reviewers[0] in r.experts
      && ("red_team_reviewer" in r.experts ==> r'.reviewers[0] == "red_team_reviewer")
      && (Review, r'.reviewers[0]) in r'.agents && r'.agents[(Review, r'.reviewers[0])] == Expected
  {
    RegisterRecords(r.agents, Review, [ChooseReviewer(r.experts).value]);
  }

  lemma GuideSilenced(r: Run, f: Failure)
    requires f in r.failures && f.kind.FailedAgent?
    ensures forall steps :: NextCommand(Exec(r, steps)).None?
  {
    forall steps ensures NextCommand(Exec(r, steps)).None? {
      AgentFailureBlocksGuide(r, steps, f);
    }
  }

  lemma SynthesisWritten(r: Run, env: Env)
    requires EffectOf(Synthesize, env, r).ok
    ensures var r' := Perform(r, Step(Synthesize, env)); var s := BuildSynthesis(r, env);
      && (forall x :: x in r.experts ==> env.files(Expert, x).json.Good?)
      && r'.synthesis == Some(s) && r'.challengeRequired == s.required
  {
  }

  /** A synthesis rests on a valid response of every selected expert and requires a challenge exactly by the policy. */
  lemma SynthesisMeans(r: Run, env: Env)
    requires EffectOf(Synthesize, env, r).ok
    ensures var r' := Perform(r, Step(Synthesize, env));
      && (forall x :: x in r.experts ==> env.files(Expert, x).json.Good?)
      && (r'.challengeRequired <==> r.policy.Auto? || (r.policy.Conditional? && Contested(r, env)))
      && r'.synthesis.Some? && forall x :: x in r'.synthesis.value.candidates ==> x in r.experts
  {
    SynthesisWritten(r, env);
    ChallengeRequiredIff(r, env);
    CandidatesWithinCap(r, env);
  }

  /** Overdue agents are reported and nothing recorded is dropped. */
  predicate ReportsOverdue(r: Run, env: Env, r': Run) {
    && r.failures <= r'.failures
    && forall key :: key in r.agents && r.agents[key] !in {Finished, Failed} && env.overdue(key.0, key.1) ==>
         Failure(key.0, key.1, OverdueAgent) in r'.failures
  }

  predicate Refreshes(cmd: Command) {
    cmd.NextStep? || cmd.Summary? || cmd.AgentTimeouts?
  }

  /** The reading commands put every overdue agent on record and leave statuses and agents alone. */
  lemma RefreshReportsOverdue(r: Run, env: Env, cmd: Command)
    requires Refreshes(cmd)
    ensures var r' := Perform(r, Step(cmd, env));
      ReportsOverdue(r, env, r') && r'.status == r.status && r'.agents == r.agents
  {
  }
}

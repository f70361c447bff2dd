/** The commands on a run directory: take the lock, read run.json, change it, write it back, drop the lock. */
module FabricatorRun {
  import opened Options
  import opened Sequences
  import opened FabricatorModel
  import opened FabricatorTheorems
  import opened FabricatorHistory

  class RunDirectory {
    /** Content of run.json. */
    var file: Run
    /** The lock file exists. */
    var locked: bool
    /** Everything written to run.json, oldest first. */
    ghost var log: seq<Run>
    /** The commands that held the lock, oldest first. */
    ghost var history: seq<Step>

    /** run.json is what the commands so far make of a fresh run, and everything ever written obeys the record. */
    ghost predicate Valid()
      reads this`file, this`log, this`history
    {
      Recorded(log, history) && file == Last(log)
    }

    constructor (run: Run)
      requires Initial(run)
      ensures Valid() && file == run && !locked && log == [run] && history == []
    {
      file, locked, log, history := run, false, [run], [];
      RecordStart(run);
    }

    /** A finished call: refused untouched while another mutation holds the lock, otherwise on record with the
        command's writes, the lock dropped again whether it succeeded or raised. */
    twostate predicate Performed(cmd: Command, env: Env, ok: bool)
      reads this
    {
      if old(locked) then !ok && locked && file == old(file) && log == old(log) && history == old(history)
      else
        var e := EffectOf(cmd, env, old(file));
        && !locked && ok == e.ok && file == After(old(file), e)
        && log == old(log) + e.writes && history == old(history) + [Step(cmd, env)]
    }

    /** `os.open(..., O_CREAT | O_EXCL)`. */
    method Acquire() returns (acquired: bool)
      modifies this`locked
      ensures acquired == !old(locked) && locked
    {
      acquired := !locked;
      locked := true;
    }

    /** The end of the locked section of a command that started on the given log. */
    method Release(ghost start: seq<Run>, ghost step: Step)
      requires Recorded(start, history)
      requires log == start + EffectOf(step.cmd, step.env, Last(start)).writes && file == Perform(Last(start), step)
      modifies this`locked, this`history
      ensures Valid() && !locked && history == old(history) + [step]
    {
      RecordStep(start, history, step);
      history := history + [step];
      locked := false;
    }

    /** `write_json(run_dir / "run.json", run)`. */
    method Write(run: Run)
      modifies this`file, this`log
      ensures file == run && log == old(log) + [run]
    {
      file, log := run, log + [run];
    }

    method DoRenderPrompts(env: Env) returns (ok: bool)
      requires Valid()
      modifies this
      ensures Valid() && Performed(RenderPrompts, env, ok)
    {
      ok := Acquire();
      if !ok { return; }
      ghost var start := log;
      var run := file;
      run := run.(status := PromptsRendered);
      Write(run);
      Release(start, Step(RenderPrompts, env));
    }

    /** `_render_challenge_prompts`, called under the lock. */
    method RenderChallengeLocked(env: Env, ids: seq<Id>) returns (ok: bool)
      modifies this`file, this`log
      ensures var e := RenderChallengeEffect(old(file), env, ids);
              ok == e.ok && log == old(log) + e.writes && file == After(old(file), e)
      ensures ok <==> CanRender(old(file), env, ids)
      ensures ok ==> |file.rounds| == 1 && Members(file.rounds[0]) == Members(ids) && |file.rounds[0]| == |Members(ids)|
    {
      var run := file;
      var unique := Dedupe(ids);
      ChallengeRendersIff(run, env, ids);
      if unique == [] { return false; }
      if exists x :: x in unique && x !in env.knownExperts { return false; }
      if exists x :: x in unique && x !in run.experts { return false; }
      if |unique| > run.maxChallenge || !env.briefExists { return false; }
      if run.rounds != [] { return false; }
      assert run.rounds + [unique] == [unique];
      run := run.(rounds := run.rounds + [unique]);
      run := run.(challengeRequired := true);
      run := run.(status := ChallengePromptsRendered);
      Write(run);
      ok := true;
    }

    method DoRenderChallengePrompts(env: Env, ids: seq<Id>) returns (ok: bool)
      requires Valid()
      modifies this
      ensures Valid() && Performed(RenderChallengePrompts(ids), env, ok)
      ensures ok <==> !old(locked) && CanRender(old(file), env, ids)
    {
      ok := Acquire();
      if !ok { return; }
      ghost var start := log;
      ok := RenderChallengeLocked(env, ids);
      Release(start, Step(RenderChallengePrompts(ids), env));
    }

    /** `update_run_dispatch` with `register_dispatch`. */
    method UpdateDispatch(run: Run, env: Env, phase: Phase, ids: seq<Id>, status: Status) returns (ok: bool)
      modifies this`file, this`log
      ensures var e := DispatchEffect(run, env, phase, ids, status);
              ok == e.ok && log == old(log) + e.writes && file == After(old(file), e)
    {
      if exists x :: x in ids && x !in env.knownExperts { return false; }
      var agents := run.agents;
      for k := 0 to |ids|
        invariant agents == Register(run.agents, phase, ids[..k])
      {
        assert ids[..k + 1][..k] == ids[..k];
        agents := agents[(phase, ids[k]) := Expected];
      }
      assert ids[..|ids|] == ids;
      Write(run.(agents := agents, status := status));
      ok := true;
    }

    method DoDispatchExperts(env: Env) returns (ok: bool)
      requires Valid()
      modifies this
      ensures Valid() && Performed(DispatchExperts, env, ok)
      ensures ok ==> forall x :: x in file.experts ==>
        (Expert, x) in file.agents && file.agents[(Expert, x)] == Expected
      ensures ok ==> forall key :: key in old(file.agents) && !(key.0.Expert? && key.1 in file.experts) ==>
                key in file.agents && file.agents[key] == old(file.agents)[key]
    {
      ok := Acquire();
      if !ok { return; }
      ghost var start := log;
      var run := file;
      ok := NavReady(run, env) && CommandAllowed(run, DispatchExperts) && ResourcesAllow(run, env, 0)
        && run.experts != [];
      if ok {
        ok := UpdateDispatch(run.(navReady := true), env, Expert, run.experts, ExpertDispatchReady);
      }
      Release(start, Step(DispatchExperts, env));
      if ok {
        ExpertDispatchRegisters(run, env);
      }
    }

    /** The loop body of `validate_phase_responses` for one expected expert. */
    method CollectOne(run: Run, env: Env, phase: Phase, id: Id) returns (ok: bool, done: Run)
      requires file == run
      modifies this`file, this`log
      ensures ok <==> Accepts(run, env, phase, id)
      ensures ok ==> file == done == MarkCompleted(run, phase, id) && log == old(log) + [done]
      ensures !ok ==> log == old(log) + RejectionWrites(run, env, phase, id)
      ensures !ok ==> file == After(run, Effect(RejectionWrites(run, env, phase, id), false))
    {
      done := run;
      var answer := env.files(phase, id);
      if !answer.markdown || answer.json.Absent? {
        Write(WithFailure(run, phase, id, MissingResponse));
        return false, run;
      }
      if answer.json.Bad? {
        Write(WithFailure(run, phase, id, InvalidResponse));
        return false, run;
      }
      if !AgentEventAllowed(run, phase, id) {
        return false, run;
      }
      done := run.(agents := run.agents[(phase, id) := Finished]);
      done := done.(failures := ClearFailures(done.failures, phase, id));
      Write(done);
      ok := true;
    }

    /** `validate_phase_responses`, called under the lock. */
    method CollectLocked(run0: Run, env: Env, phase: Phase, ids: seq<Id>) returns (ok: bool)
      requires file == run0
      modifies this`file, this`log
      ensures var e := ValidateFrom(run0, env, phase, ids, 0);
              ok == e.ok && log == old(log) + e.writes && file == After(run0, e)
    {
      var run := run0;
      ghost var whole := ValidateFrom(run, env, phase, ids, 0);
      for k := 0 to |ids|
        invariant file == run
        invariant Pending(log, old(log), run0, whole, run, ValidateFrom(run, env, phase, ids, k))
      {
        ghost var before, was := log, run;
        ok, run := CollectOne(run, env, phase, ids[k]);
        if !ok {
          return;
        }
        PendingNext(before, old(log), run0, whole, was, run, ValidateFrom(run, env, phase, ids, k + 1));
      }
      if phase.Review? {
        run := run.(reviewBlockers := Having(env, phase, ids, Blocking));
      }
      Write(run.(status := CollectedStatus(phase)));
      ok := true;
    }

    method DoValidateResponses(env: Env, phase: Phase) returns (ok: bool)
      requires Valid()
      modifies this
      ensures Valid() && Performed(ValidateResponses(phase), env, ok)
      ensures ok <==>
        !old(locked) && old(file).status in PhaseAllowed(phase)
          && AllGood(env, phase, ExpectedIds(old(file), phase), 0)
    {
      ok := Acquire();
      if !ok { return; }
      ghost var start := log;
      var run := file;
      var ids := ExpectedIds(run, phase);
      DispatchedValidateIff(run, phase, env);
      ok := CommandAllowed(run, ValidateResponses(phase)) && ids != [];
      if ok {
        ok := CollectLocked(run, env, phase, ids);
      }
      Release(start, Step(ValidateResponses(phase), env));
    }

    /** `synthesize_run`, called under the lock. */
    method SynthesizeLocked(run0: Run, env: Env) returns (ok: bool)
      requires file == run0
      modifies this`file, this`log
      ensures var e := SynthesizeEffect(run0, env);
              ok == e.ok && log == old(log) + e.writes && file == After(run0, e)
    {
      var run := run0;
      ok := CommandAllowed(run, Synthesize) && forall x :: x in run.experts ==> env.files(Expert, x).json.Good?;
      if ok {
        var synthesis := BuildSynthesis(run, env);
        run := run.(synthesis := Some(synthesis));
        run := run.(challengeRequired := synthesis.required);
        run := run.(status := SynthesisReady);
        Write(run);
      }
    }

    method DoSynthesize(env: Env) returns (ok: bool)
      requires Valid()
      modifies this
      ensures Valid() && Performed(Synthesize, env, ok)
      ensures ok ==> (forall x :: x in file.experts ==> env.files(Expert, x).json.Good?)
                     && (file.challengeRequired <==>
                        file.policy.Auto? || (file.policy.Conditional? && Contested(old(file), env)))
    {
      ok := Acquire();
      if !ok { return; }
      ghost var start := log;
      ok := SynthesizeLocked(file, env);
      Release(start, Step(Synthesize, env));
      if ok {
        SynthesisMeans(Last(start), env);
      }
    }

    /** `dispatch_challenge_agents`, called under the lock: the round is on file before resources are checked. */
    method DispatchChallengeLocked(run0: Run, env: Env) returns (ok: bool)
      requires file == run0
      modifies this`file, this`log
      ensures var e := EffectOf(DispatchChallenge, env, run0);
              ok == e.ok && log == old(log) + e.writes && file == After(run0, e)
    {
      ok := CommandAllowed(run0, DispatchChallenge) && run0.synthesis.Some? && run0.synthesis.value.required;
      if ok {
        var ids := SelectChallengeExperts(run0);
        ok := RenderChallengeLocked(env, ids);
        if ok {
          var rendered := file;
          ok := ResourcesAllow(rendered, env, 0);
          if ok {
            ok := UpdateDispatch(rendered, env, Challenge, ids, ChallengeDispatchReady);
          }
        }
      }
    }

    method DoDispatchChallenge(env: Env) returns (ok: bool)
      requires Valid()
      modifies this
      ensures Valid() && Performed(DispatchChallenge, env, ok)
      ensures ok <==> !old(locked) && Renderable(old(file), env) && ResourcesAllow(old(file), env, 0)
      ensures !ok && file != old(file) <==>
        !old(locked) && Renderable(old(file), env) && !ResourcesAllow(old(file), env, 0)
    {
      ok := Acquire();
      if !ok { return; }
      ghost var start := log;
      ChallengeDispatchIff(file, env);
      ok := DispatchChallengeLocked(file, env);
      Release(start, Step(DispatchChallenge, env));
    }

    method DoDispatchReview(env: Env) returns (ok: bool)
      requires Valid()
      modifies this
      ensures Valid() && Performed(DispatchReview, env, ok)
      ensures ok ==> |file.reviewers| == 1 && file.reviewers[0] in file.experts
                     && (Review, file.reviewers[0]) in file.agents
                        && file.agents[(Review, file.reviewers[0])] == Expected
      ensures ok ==> PassedDecision(log[0], history)
    {
      ok := Acquire();
      if !ok { return; }
      ghost var start := log;
      var run := file;
      var reviewer := ChooseReviewer(run.experts);
      ok := CommandAllowed(run, DispatchReview) && ResourcesAllow(run, env, 0) && reviewer.Some?;
      if ok {
        run := run.(reviewers := [reviewer.value]);
        ok := UpdateDispatch(run, env, Review, [reviewer.value], ReviewDispatchReady);
      }
      Release(start, Step(DispatchReview, env));
      if ok {
        ReviewDispatchRegisters(Last(start), env);
        RecordedDecision(log, history);
      }
    }

    /** The traceability report, once stored, is empty exactly when everything is resolved and mentioned. */
    method DoTraceDecision(env: Env) returns (ok: bool)
      requires Valid()
      modifies this
      ensures Valid() && Performed(TraceDecision, env, ok)
      ensures ok ==> (file.traceability == Some(Traceability([], [])) <==> Decided(env))
    {
      ok := Acquire();
      if !ok { return; }
      ghost var start := log;
      ok := env.traceReadable;
      if ok {
        var run := file;
        run := run.(traceability := Some(Trace(env)));
        Write(run);
      }
      Release(start, Step(TraceDecision, env));
    }

    method DoMarkDecisionReady(env: Env) returns (ok: bool)
      requires Valid()
      modifies this
      ensures Valid() && Performed(MarkDecisionReady, env, ok)
      ensures ok <==>
        !old(locked) && NavReady(old(file), env) && Decided(env)
          && old(file).status in {SynthesisReady, ChallengeCollected}
      ensures ok ==> PassedDecision(log[0], history)
    {
      ok := Acquire();
      if !ok { return; }
      ghost var start := log;
      var run := file;
      DecisionReadyIff(run, env);
      ok := NavReady(run, env) && env.traceReadable;
      if ok {
        run := run.(navReady := true);
        run := run.(traceability := Some(Trace(env)));
        Write(run);
        ok := Trace(env).unresolved == [] && Trace(env).unreferenced == [] && CommandAllowed(run, MarkDecisionReady);
        if ok {
          run := run.(status := DecisionReady);
          Write(run);
        }
      }
      Release(start, Step(MarkDecisionReady, env));
      if ok {
        RecordedDecision(log, history);
      }
    }

    method DoMarkImplementationReady(env: Env) returns (ok: bool)
      requires Valid()
      modifies this
      ensures Valid() && Performed(MarkImplementationReady, env, ok)
      ensures ok ==> PassedDecision(log[0], history)
    {
      ok := Acquire();
      if !ok { return; }
      ghost var start := log;
      var run := file;
      ok := CommandAllowed(run, MarkImplementationReady);
      if ok {
        run := run.(status := ImplementationReady);
        Write(run);
      }
      Release(start, Step(MarkImplementationReady, env));
      if ok {
        RecordedDecision(log, history);
      }
    }

    method DoAgentStarted(env: Env, phase: Phase, expert: Id) returns (ok: bool)
      requires Valid()
      modifies this
      ensures Valid() && Performed(AgentStarted(phase, expert), env, ok)
      ensures ok <==>
        !old(locked) && old(file).status in PhaseAllowed(phase) && (phase, expert) in old(file).agents && env.memoryOk
                      && |ActiveAgents(old(file).agents) + {(phase, expert)}| <= env.maxActive
      ensures ok ==> |ActiveAgents(file.agents)| <= env.maxActive
    {
      ok := Acquire();
      if !ok { return; }
      ghost var start := log;
      var run := file;
      AgentStartedIff(run, env, phase, expert);
      ok := AgentEventAllowed(run, phase, expert)
        && ResourcesAllow(run, env, if run.agents[(phase, expert)] == Active then 0 else 1);
      if ok {
        run := run.(agents := run.agents[(phase, expert) := Active]);
        run := run.(status := StartedStatus(phase));
        Write(run);
      }
      Release(start, Step(AgentStarted(phase, expert), env));
      StepActivates(Last(start), Step(AgentStarted(phase, expert), env));
    }

    /** `mark_agent_completed`, called under the lock. */
    method CompleteLocked(run0: Run, env: Env, phase: Phase, expert: Id) returns (ok: bool)
      requires file == run0
      modifies this`file, this`log
      ensures var e := AgentCompletedEffect(run0, env, phase, expert);
              ok == e.ok && log == old(log) + e.writes && file == After(run0, e)
    {
      var run := run0;
      ok := AgentEventAllowed(run, phase, expert);
      if ok {
        var answer := env.files(phase, expert);
        if !answer.markdown || answer.json.Absent? {
          Write(WithFailure(run, phase, expert, MissingResponse));
          return false;
        }
        run := run.(agents := run.agents[(phase, expert) := Finished]);
        run := run.(failures := ClearFailures(run.failures, phase, expert));
        Write(run);
      }
    }

    method DoAgentCompleted(env: Env, phase: Phase, expert: Id) returns (ok: bool)
      requires Valid()
      modifies this
      ensures Valid() && Performed(AgentCompleted(phase, expert), env, ok)
      ensures ok ==>
        SettledAgent(file, phase, expert) && SameBut(old(file), file, phase, [expert])
          && file.status == old(file).status
    {
      ok := Acquire();
      if !ok { return; }
      ghost var start := log;
      ok := CompleteLocked(file, env, phase, expert);
      Release(start, Step(AgentCompleted(phase, expert), env));
      if ok {
        AgentCompletedSettles(Last(start), env, phase, expert);
      }
    }

    /** A failed agent is on record, nobody else is touched, and no command run after it makes the guide speak again. */
    method DoAgentFailed(env: Env, phase: Phase, expert: Id) returns (ok: bool)
      requires Valid()
      modifies this
      ensures Valid() && Performed(AgentFailed(phase, expert), env, ok)
      ensures ok <==> !old(locked) && AgentEventAllowed(old(file), phase, expert)
      ensures ok ==> (phase, expert) in file.agents && file.agents[(phase, expert)] == Failed
                     && SameBut(old(file), file, phase, [expert])
      ensures ok ==> forall steps :: NextCommand(Exec(file, steps)).None?
    {
      ok := Acquire();
      if !ok { return; }
      ghost var start := log;
      var run := file;
      ok := AgentEventAllowed(run, phase, expert);
      if ok {
        run := run.(agents := run.agents[(phase, expert) := Failed]);
        run := run.(failures := run.failures + {Failure(phase, expert, FailedAgent)});
        Write(run);
      }
      Release(start, Step(AgentFailed(phase, expert), env));
      if ok {
        AgentFailedRecords(Last(start), env, phase, expert);
        GuideSilenced(file, Failure(phase, expert, FailedAgent));
      }
    }

    /** What the guide proposes is accepted by its own guard, every overdue agent is on record, and the status stays. */
    method DoNextStep(env: Env) returns (ok: bool, next: Option<Command>)
      requires Valid()
      modifies this
      ensures Valid() && Performed(NextStep, env, ok)
      ensures ok ==> next == NextCommand(file)
      ensures next.Some? ==> CommandAllowed(file, next.value)
      ensures ok ==>
        ReportsOverdue(old(file), env, file) && file.status == old(file).status && file.agents == old(file).agents
    {
      next := None;
      ok := Acquire();
      if !ok { return; }
      ghost var start := log;
      var run := file;
      RefreshReportsOverdue(run, env, NextStep);
      run := run.(navReady := NavReady(run, env));
      run := run.(failures := CollectFailures(run, env));
      Write(run);
      next := NextCommand(run);
      GuideIsAllowed(run);
      Release(start, Step(NextStep, env));
    }

    /** `collect_failures` with its write, called under the lock. */
    method RefreshLocked(run0: Run, env: Env, refreshNavigation: bool)
      requires file == run0
      modifies this`file, this`log
      ensures var navReady := if refreshNavigation then NavReady(run0, env) else run0.navReady;
        var e := RefreshEffect(run0, run0.(navReady := navReady, failures := CollectFailures(run0, env)), false);
        log == old(log) + e.writes && file == After(run0, e)
    {
      var run := run0;
      var failures := CollectFailures(run, env);
      if failures != run.failures {
        if refreshNavigation {
          run := run.(navReady := NavReady(run, env));
        }
        run := run.(failures := failures);
        Write(run);
      }
    }

    /** Whether or not it had to write: every overdue agent is on record, and the status stays. */
    method DoSummary(env: Env) returns (ok: bool)
      requires Valid()
      modifies this
      ensures Valid() && Performed(Summary, env, ok)
      ensures ok ==>
        ReportsOverdue(old(file), env, file) && file.status == old(file).status && file.agents == old(file).agents
    {
      ok := Acquire();
      if !ok { return; }
      ghost var start := log;
      RefreshReportsOverdue(file, env, Summary);
      RefreshLocked(file, env, true);
      Release(start, Step(Summary, env));
    }

    method DoAgentTimeouts(env: Env) returns (ok: bool)
      requires Valid()
      modifies this
      ensures Valid() && Performed(AgentTimeouts, env, ok)
      ensures ok ==>
        ReportsOverdue(old(file), env, file) && file.status == old(file).status && file.agents == old(file).agents
    {
      ok := Acquire();
      if !ok { return; }
      ghost var start := log;
      RefreshReportsOverdue(file, env, AgentTimeouts);
      RefreshLocked(file, env, false);
      Release(start, Step(AgentTimeouts, env));
    }

    /** Finalising for human review succeeds only on a run that passed its milestones, with no review blocker. */
    method DoFinalize(env: Env, result: Result) returns (ok: bool)
      requires Valid()
      modifies this
      ensures Valid() && Performed(Finalize(result), env, ok)
      ensures ok ==> file.status in TERMINAL && old(file).status !in TERMINAL
      ensures ok && result.ReadyForHumanReview? ==> exists v, s, d, f :: Milestones(log[0], history, v, s, d, f)
    {
      ok := Acquire();
      if !ok { return; }
      ghost var start := log;
      var run := file;
      ok := if result.ReadyForHumanReview? then CommandAllowed(run, Finalize(result)) && run.reviewBlockers == []
            else run.status !in TERMINAL;
      if ok {
        run := run.(status := match result
                              case ReadyForHumanReview => Completed
                              case ResultBlocked => Blocked
                              case ResultCancelled => Cancelled);
        Write(run);
      }
      Release(start, Step(Finalize(result), env));
      if ok && result.ReadyForHumanReview? {
        RecordedCompletion(log, history);
      }
    }
  }
}

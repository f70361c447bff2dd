/** When the native loop is in which phase, and which answer ends it how. */
module NativeLoopOutcomes {
  import opened Options
  import opened NativeLoop

  // ----- phases -----

  /** A complaint is pending or the last tool result failed. */
  ghost predicate Troubled(st: LoopState) {
    st.errors || (st.results != [] && !st.results[|st.results| - 1].ok)
  }

  ghost predicate TriedToFinish(trace: Trace) {
    exists k :: 0 <= k < |trace| && trace[k].action == Finish
  }

  /** Every phase in full, from what the run has seen. */
  lemma PhaseIff(contract: Contract, st: LoopState)
    ensures var phase := PhaseOf(contract, st);
      && (phase == Repair <==> Troubled(st))
      && (phase == Inspect <==> !Troubled(st) && st.results == [])
      && (phase == Verify <==> !Troubled(st) && !VerifiedAfterMutations(st.results))
      && (phase == Patch <==> !Troubled(st) && st.results != [] && VerifiedAfterMutations(st.results)
                              && contract == CodingPatchProposal && !TriedToFinish(st.trace))
      && (phase == FinishReady <==> !Troubled(st) && st.results != [] && VerifiedAfterMutations(st.results)
                                    && (contract != CodingPatchProposal || TriedToFinish(st.trace)))
  {
    VerifiedIff(st.results);
    var mutation, verification := LastToolIndex(st.results, MUTATION), LastToolIndex(st.results, VERIFICATION);
    assert MUTATION * VERIFICATION == {};
    assert mutation >= 0 ==> mutation != verification;
  }

  // ----- one step -----

  /** The call is one of the tools the phase offers. */
  ghost predicate OffersCall(config: Config, st: LoopState, call: Option<Call>) {
    call.Some? && call.value.name in AllowedTools(config.allowedTools, config.mode, PhaseOf(config.contract, st))
  }

  /** An offered call that was not attempted before. */
  ghost predicate FirstAttempt(config: Config, st: LoopState, answer: Answer) {
    answer.CallTool? && OffersCall(config, st, answer.call) && CountOf(st, answer.call.value) == 0
  }

  ghost predicate StopsAs(r: StepResult, stop: Stop) {
    r.Halt? && r.stop == stop
  }

  /** The loop returns exactly on a finish whose payload meets the contract, when the mode's evidence rule holds and
      every successful mutation is followed by a successful verification. */
  lemma StepReturnsIff(config: Config, i: nat, st: LoopState, answer: Answer)
    ensures StopsAs(Step(config, i, st, answer), Returned) <==>
      answer == Done(true) && ReturnEvidence(config, st.results)
  {
    GateIff(config.mode, config.contract, st.results);
  }

  /** Every other way to stop, by the answer. */
  lemma StepStopsIff(config: Config, i: nat, st: LoopState, answer: Answer)
    ensures var r := Step(config, i, st, answer);
      && (StopsAs(r, DuplicateFailure) <==>
          answer.CallTool? && OffersCall(config, st, answer.call)
          && CountOf(st, answer.call.value) >= DuplicateLimit(config.mode))
      && (StopsAs(r, WaitingApproval) <==> FirstAttempt(config, st, answer) && answer.execution == ApprovalNeeded)
      && (StopsAs(r, OperatorRejected) <==> answer == AskOperator(true, Rejected))
      && (StopsAs(r, Aborted) <==>
          answer == Crash || answer == AskOperator(true, Interrupted)
          || (FirstAttempt(config, st, answer) && answer.execution == ToolCrash))
      && !StopsAs(r, StepsExhausted)
  {
  }

  /** A tool runs exactly on the first attempt of an offered call, and its result is then the last one; no other answer
      changes the results. */
  lemma StepExecutesIff(config: Config, i: nat, st: LoopState, answer: Answer)
    ensures var st' := Step(config, i, st, answer).st;
      if FirstAttempt(config, st, answer) && answer.execution.Observed?
      then st'.results == st.results + [ToolResult(answer.call.value.name, answer.execution.ok)]
      else st'.results == st.results
  {
  }

  /** A step that goes on leaves a complaint exactly unless a tool ran or the operator replied. */
  lemma StepComplainsIff(config: Config, i: nat, st: LoopState, answer: Answer)
    requires Step(config, i, st, answer).Continue?
    ensures !Step(config, i, st, answer).st.errors <==>
      FirstAttempt(config, st, answer) || answer == AskOperator(true, Replied)
  {
  }

  /** Nothing is logged exactly for an uncaught exception, an operator's rejection or an interrupt; any other step logs
      one entry with its number, the phase it was taken in, the kind of the answer and whether it ended in a
      complaint. */
  lemma StepLogs(config: Config, i: nat, st: LoopState, answer: Answer)
    ensures var r := Step(config, i, st, answer);
      if StopsAs(r, Aborted) || StopsAs(r, OperatorRejected) then r.st.trace == st.trace
      else
        && |r.st.trace| == |st.trace| + 1 && r.st.trace[..|st.trace|] == st.trace
        && var e := r.st.trace[|st.trace|];
           && e.step == i + 1 && e.phase == PhaseOf(config.contract, st) && KindOf(answer) == Some(e.action)
           && (r.Continue? ==> e.error == r.st.errors)
           && (StopsAs(r, Returned) ==> !e.error)
           && (StopsAs(r, DuplicateFailure) || StopsAs(r, WaitingApproval) ==> e.error)
  {
  }

  function KindOf(answer: Answer): Option<ActionKind> {
    match answer
    case Malformed => Some(InvalidAction)
    case CallTool(_, _) => Some(ToolCall)
    case AskOperator(_, _) => Some(NeedsOperatorAction)
    case Done(_) => Some(Finish)
    case Crash => None
  }

  // ----- whole runs -----

  /** The state before step n, if the run gets there. */
  function StateAt(config: Config, oracle: Oracle, n: nat): Option<LoopState> {
    if n == 0 then Some(START)
    else
      var before := StateAt(config, oracle, n - 1);
      if before.None? || n > config.maxSteps then None
      else
        var r := Step(config, n - 1, before.value, oracle(n - 1));
        if r.Continue? then Some(r.st) else None
  }

  lemma {:induction false} RunFromState(config: Config, oracle: Oracle, n: nat)
    requires StateAt(config, oracle, n).Some?
    ensures RunLoop(config, oracle) == RunFrom(config, oracle, n, StateAt(config, oracle, n).value)
  {
    if n > 0 {
      RunFromState(config, oracle, n - 1);
    }
  }

  /** A run is its steps one after another: it stops at the first step that halts, or when all are used up. */
  ghost predicate EndsAt(config: Config, oracle: Oracle, o: Outcome) {
    && StateAt(config, oracle, o.steps).Some?
    && var st := StateAt(config, oracle, o.steps).value;
       if o.stop.StepsExhausted? then o.steps == config.maxSteps && o.st == st
       else o.steps < config.maxSteps && Step(config, o.steps, st, oracle(o.steps)) == Halt(o.st, o.stop)
  }

  lemma {:induction false} RunEndsFrom(config: Config, oracle: Oracle, i: nat)
    requires StateAt(config, oracle, i).Some? && i <= config.maxSteps
    ensures EndsAt(config, oracle, RunFrom(config, oracle, i, StateAt(config, oracle, i).value))
    decreases config.maxSteps - i
  {
    if i < config.maxSteps {
      var st := StateAt(config, oracle, i).value;
      var r := Step(config, i, st, oracle(i));
      StepStopsIff(config, i, st, oracle(i));
      if r.Continue? {
        assert StateAt(config, oracle, i + 1) == Some(r.st);
        RunEndsFrom(config, oracle, i + 1);
      }
    }
  }

  lemma RunEnds(config: Config, oracle: Oracle)
    ensures EndsAt(config, oracle, RunLoop(config, oracle))
  {
    RunEndsFrom(config, oracle, 0);
  }

  /** Some reached step is answered by a finish that may be returned. */
  ghost predicate FinishesAt(config: Config, oracle: Oracle, n: nat) {
    && n < config.maxSteps && StateAt(config, oracle, n).Some?
    && oracle(n) == Done(true) && ReturnEvidence(config, StateAt(config, oracle, n).value.results)
  }

  /** Over every run: it returns exactly when some step it reaches is answered by a finish whose payload meets the
      contract while the evidence is there, and that is the step it returns at. */
  lemma RunReturnsIff(config: Config, oracle: Oracle)
    ensures var o := RunLoop(config, oracle);
      && (o.stop.Returned? <==> exists n: nat :: FinishesAt(config, oracle, n))
      && (o.stop.Returned? ==> FinishesAt(config, oracle, o.steps) && oracle(o.steps) == Done(true))
  {
    var o := RunLoop(config, oracle);
    RunEnds(config, oracle);
    if o.stop.Returned? {
      StepReturnsIff(config, o.steps, StateAt(config, oracle, o.steps).value, oracle(o.steps));
      assert FinishesAt(config, oracle, o.steps);
    }
    if n: nat :| FinishesAt(config, oracle, n) {
      RunFromState(config, oracle, n);
      StepReturnsIff(config, n, StateAt(config, oracle, n).value, oracle(n));
    }
  }

  /** Why a run stopped, from the answer at its last step. */
  lemma RunStops(config: Config, oracle: Oracle)
    ensures var o := RunLoop(config, oracle);
      && (o.stop == OperatorRejected ==> oracle(o.steps) == AskOperator(true, Rejected))
      && (o.stop == WaitingApproval ==> oracle(o.steps).CallTool? && oracle(o.steps).execution == ApprovalNeeded)
      && (o.stop == DuplicateFailure ==> oracle(o.steps).CallTool?)
      && (o.stop == StepsExhausted <==> o.steps == config.maxSteps)
  {
    var o := RunLoop(config, oracle);
    RunEnds(config, oracle);
    if o.steps < config.maxSteps {
      StepStopsIff(config, o.steps, StateAt(config, oracle, o.steps).value, oracle(o.steps));
    }
  }
}

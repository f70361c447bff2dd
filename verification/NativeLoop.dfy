/** The bounded action/observation loop of a native worker node and its policy. */
module NativeLoop {
  import opened Options
  import opened Sequences

  // ----- policy -----

  type ToolName = string

  const DISCOVERY: set<ToolName> :=
    {"native.fs_list", "native.fs_search", "native.fs_read", "native.git_status", "native.git_diff",
     "native.data_profile"}
  const MUTATION: set<ToolName> := {"native.fs_write", "native.patch_apply"}
  const VERIFICATION: set<ToolName> := {"native.verify", "native.shell", "native.git_status", "native.git_diff"}

  /** Looking at the repository's state both discovers and verifies; nothing else has two roles, and a mutation never
      has another. */
  lemma ToolRoles(t: ToolName)
    ensures t in DISCOVERY && t in VERIFICATION <==> t in {"native.git_status", "native.git_diff"}
    ensures t in MUTATION ==> t !in DISCOVERY && t !in VERIFICATION
    ensures |DISCOVERY| == 6 && |MUTATION| == 2 && |VERIFICATION| == 4
  {
    assert DISCOVERY * VERIFICATION == {"native.git_status", "native.git_diff"};
    assert MUTATION !! DISCOVERY + VERIFICATION;
  }

  datatype Mode = Strict | Guided | Autonomous

  datatype Contract = CodingInspection | CodingPatchProposal | OtherContract

  datatype Phase = Inspect | Patch | Verify | Repair | FinishReady

  datatype ToolResult = ToolResult(toolName: ToolName, ok: bool)

  /** A call and, as its canonical JSON text, its arguments; two calls have one signature when they are equal. */
  datatype Call = Call(name: ToolName, arguments: string)

  datatype ActionKind = ToolCall | Finish | NeedsOperatorAction | InvalidAction

  /** One trace entry; `executed` is the observation of an executed call, `attempted` marks a call that passed the
      phase filter. */
  datatype Entry = Entry(step: nat, phase: Phase, action: ActionKind, call: Option<Call>, attempted: bool,
                         executed: Option<ToolResult>, error: bool)

  type Trace = seq<Entry>

  datatype Config = Config(mode: Mode, contract: Contract, allowedTools: seq<ToolName>, maxSteps: nat)

  datatype LoopState = LoopState(trace: Trace, results: seq<ToolResult>, errors: bool, seen: map<Call, nat>)

  /** `_last_tool_index`, or -1. */
  function LastToolIndex(results: seq<ToolResult>, names: set<ToolName>): (r: int)
    ensures -1 <= r < |results|
    ensures r >= 0 ==> results[r].toolName in names && results[r].ok
    ensures forall k :: r < k < |results| ==> !(results[k].toolName in names && results[k].ok)
  {
    if results == [] then -1
    else
      var last := |results| - 1;
      if results[last].toolName in names && results[last].ok then last else LastToolIndex(results[..last], names)
  }

  method FindLastTool(results: seq<ToolResult>, names: set<ToolName>) returns (r: int)
    ensures r == LastToolIndex(results, names)
  {
    var index := |results| - 1;
    while index >= 0
      invariant -1 <= index < |results|
      invariant forall k :: index < k < |results| ==> !(results[k].toolName in names && results[k].ok)
    {
      if results[index].toolName in names && results[index].ok {
        return index;
      }
      index := index - 1;
    }
    r := -1;
  }

  predicate HasFinishAttempt(trace: Trace) {
    exists k :: 0 <= k < |trace| && trace[k].action.Finish?
  }

  function PhaseOf(contract: Contract, st: LoopState): Phase {
    var results := st.results;
    if st.errors || (results != [] && !results[|results| - 1].ok) then Repair
    else if results == [] then Inspect
    else
      var mutation, verification := LastToolIndex(results, MUTATION), LastToolIndex(results, VERIFICATION);
      if mutation >= 0 && verification < mutation then Verify
      else if contract.CodingPatchProposal? && !HasFinishAttempt(st.trace) then Patch
      else FinishReady
  }

  function PhaseNames(phase: Phase): set<ToolName> {
    match phase
    case Inspect => DISCOVERY
    case Verify => DISCOVERY + VERIFICATION
    case _ => DISCOVERY + MUTATION + VERIFICATION
  }

  function AllowedTools(tools: seq<ToolName>, mode: Mode, phase: Phase): seq<ToolName> {
    if !mode.Strict? then tools
    else
      var filtered := KeepIn(tools, PhaseNames(phase));
      if filtered != [] then filtered else tools
  }

  function DuplicateLimit(mode: Mode): nat {
    match mode
    case Strict => 2
    case Guided => 3
    case Autonomous => 4
  }

  predicate AnySuccess(results: seq<ToolResult>) {
    exists k :: 0 <= k < |results| && results[k].ok
  }

  predicate GateRefuses(mode: Mode, contract: Contract, results: seq<ToolResult>) {
    if mode.Strict? && !AnySuccess(results) then true
    else if mode.Guided? && !contract.OtherContract? && !AnySuccess(results) then true
    else
      var mutation, verification := LastToolIndex(results, MUTATION), LastToolIndex(results, VERIFICATION);
      if mutation < 0 then false
      else if (mode.Strict? || mode.Guided?) && (verification < 0 || verification < mutation) then true
      else mode.Autonomous? && !(verification >= 0 && verification > mutation)
  }

  /** A result is a successful mutation (verification). */
  predicate Mutates(r: ToolResult) { r.ok && r.toolName in MUTATION }
  predicate Verifies(r: ToolResult) { r.ok && r.toolName in VERIFICATION }

  /** Every successful mutation is followed by a successful verification. */
  ghost predicate VerifiedAfterMutations(results: seq<ToolResult>) {
    forall m :: 0 <= m < |results| && Mutates(results[m]) ==> exists v :: m < v < |results| && Verifies(results[v])
  }

  lemma VerifiedIff(results: seq<ToolResult>)
    ensures VerifiedAfterMutations(results) <==>
            LastToolIndex(results, MUTATION) < 0
              || LastToolIndex(results, MUTATION) < LastToolIndex(results, VERIFICATION)
  {
    var mutation, verification := LastToolIndex(results, MUTATION), LastToolIndex(results, VERIFICATION);
    if mutation >= 0 {
      assert Mutates(results[mutation]);
      if mutation < verification {
        assert Verifies(results[verification]);
      }
    }
  }

  /** The gate in full: it accepts exactly when its mode's evidence rule holds and every successful mutation is
      followed by a successful verification, in all three modes alike. */
  lemma GateIff(mode: Mode, contract: Contract, results: seq<ToolResult>)
    ensures !GateRefuses(mode, contract, results) <==>
            && (mode.Strict? || (mode.Guided? && !contract.OtherContract?) ==> AnySuccess(results))
            && VerifiedAfterMutations(results)
  {
    VerifiedIff(results);
    var mutation, verification := LastToolIndex(results, MUTATION), LastToolIndex(results, VERIFICATION);
    assert MUTATION * VERIFICATION == {};
    if mutation >= 0 {
      assert results[mutation].toolName !in VERIFICATION;
      assert mutation != verification;
    }
  }

  /** The gate and the phase function agree: finishing is accepted in `patch` and `finish_ready` and refused in
      `verify`. */
  lemma GateAgreesWithPhase(config: Config, st: LoopState)
    ensures PhaseOf(config.contract, st) in {Patch, FinishReady} ==>
      !GateRefuses(config.mode, config.contract, st.results)
    ensures PhaseOf(config.contract, st).Verify? ==> GateRefuses(config.mode, config.contract, st.results)
  {
    GateIff(config.mode, config.contract, st.results);
    VerifiedIff(st.results);
    if st.results != [] && st.results[|st.results| - 1].ok {
      assert AnySuccess(st.results);
    }
  }

  // ----- one step -----

  /** What the model answers to a request. `Crash` is any exception the loop does not catch. */
  datatype Answer =
    | Malformed
    | CallTool(call: Option<Call>, execution: Execution)
    | AskOperator(valid: bool, reply: Reply)
    | Done(payloadValid: bool)
    | Crash

  datatype Execution = Observed(ok: bool) | ApprovalNeeded | ToolCrash

  datatype Reply = Replied | Rejected | Interrupted

  datatype Stop = Returned | DuplicateFailure | StepsExhausted | WaitingApproval | OperatorRejected | Aborted

  datatype StepResult = Continue(st: LoopState) | Halt(st: LoopState, stop: Stop)

  function Log(st: LoopState, entry: Entry, errors: bool): LoopState {
    st.(trace := st.trace + [entry], errors := errors)
  }

  function CountOf(st: LoopState, call: Call): nat {
    if call in st.seen then st.seen[call] else 0
  }

  function StepCall(config: Config, i: nat, phase: Phase, st: LoopState, call: Option<Call>,
                    execution: Execution): StepResult {
    var entry := Entry(i + 1, phase, ToolCall, call, false, None, true);
    if call.None? || call.value.name !in AllowedTools(config.allowedTools, config.mode, phase) then
      Continue(Log(st, entry, true))
    else
      var repeats, tried := CountOf(st, call.value), entry.(attempted := true);
      if repeats >= DuplicateLimit(config.mode) then Halt(Log(st, tried, st.errors), DuplicateFailure)
      else if repeats >= 1 then
        Continue(Log(st.(seen := st.seen[call.value := repeats + 1]), tried, true))
      else
        var st1 := st.(seen := st.seen[call.value := 1]);
        match execution
        case ApprovalNeeded => Halt(Log(st1, tried, st.errors), WaitingApproval)
        case ToolCrash => Halt(st1, Aborted)
        case Observed(ok) =>
          var result := ToolResult(call.value.name, ok);
          Continue(Log(st1.(results := st1.results + [result]),
                       tried.(executed := Some(result), error := false), false))
  }

  function Step(config: Config, i: nat, st: LoopState, answer: Answer): StepResult {
    var phase := PhaseOf(config.contract, st);
    match answer
    case Crash => Halt(st, Aborted)
    case Malformed => Continue(Log(st, Entry(i + 1, phase, InvalidAction, None, false, None, true), true))
    case CallTool(call, execution) => StepCall(config, i, phase, st, call, execution)
    case AskOperator(valid, reply) =>
      var entry := Entry(i + 1, phase, NeedsOperatorAction, None, false, None, !valid);
      if !valid then Continue(Log(st, entry, true))
      else
        (match reply
         case Rejected => Halt(st, OperatorRejected)
         case Interrupted => Halt(st, Aborted)
         case Replied => Continue(Log(st, entry, false)))
    case Done(payloadValid) =>
      var entry := Entry(i + 1, phase, Finish, None, false, None, true);
      if GateRefuses(config.mode, config.contract, st.results) || !payloadValid then Continue(Log(st, entry, true))
      else Halt(Log(st, entry.(error := false), st.errors), Returned)
  }

  // ----- the loop -----

  /** The model's and tools' behaviour: one answer per step. */
  type Oracle = nat -> Answer

  datatype Outcome = Outcome(st: LoopState, stop: Stop, steps: nat)

  /** The state after n steps, or where the loop stopped before. */
  function RunFrom(config: Config, oracle: Oracle, i: nat, st: LoopState): Outcome
    decreases config.maxSteps - i
  {
    if i >= config.maxSteps then Outcome(st, StepsExhausted, i)
    else
      match Step(config, i, st, oracle(i))
      case Halt(st', stop) => Outcome(st', stop, i)
      case Continue(st') => RunFrom(config, oracle, i + 1, st')
  }

  const START := LoopState([], [], false, map[])

  function RunLoop(config: Config, oracle: Oracle): Outcome {
    RunFrom(config, oracle, 0, START)
  }

  /** The body of the loop for a tool call. */
  method HandleToolCall(config: Config, i: nat, phase: Phase, st: LoopState, call: Option<Call>, execution: Execution)
    returns (r: StepResult)
    ensures r == StepCall(config, i, phase, st, call, execution)
  {
    var effective := AllowedTools(config.allowedTools, config.mode, phase);
    var seen, entry := st.seen, Entry(i + 1, phase, ToolCall, call, false, None, true);
    if call.None? || call.value.name !in effective {
      return Continue(Log(st, entry, true));
    }
    entry := entry.(attempted := true);
    var repeats := if call.value in seen then seen[call.value] else 0;
    if repeats >= DuplicateLimit(config.mode) {
      return Halt(Log(st, entry, st.errors), DuplicateFailure);
    }
    seen := seen[call.value := repeats + 1];
    if repeats >= 1 {
      return Continue(Log(st.(seen := seen), entry, true));
    }
    match execution {
      case ApprovalNeeded =>
        r := Halt(Log(st.(seen := seen), entry, st.errors), WaitingApproval);
      case ToolCrash =>
        r := Halt(st.(seen := seen), Aborted);
      case Observed(ok) =>
        var result := ToolResult(call.value.name, ok);
        entry := entry.(executed := Some(result), error := false);
        r := Continue(Log(st.(seen := seen, results := st.results + [result]), entry, false));
    }
  }

  method RunNativeLoop(config: Config, oracle: Oracle) returns (outcome: Outcome)
    ensures outcome == RunLoop(config, oracle)
  {
    var trace: Trace, results: seq<ToolResult>, errors, seen: map<Call, nat> := [], [], false, map[];
    for i := 0 to config.maxSteps
      invariant RunFrom(config, oracle, i, LoopState(trace, results, errors, seen)) == RunLoop(config, oracle)
    {
      var phase := PhaseOf(config.contract, LoopState(trace, results, errors, seen));
      match oracle(i) {
        case Crash =>
          return Outcome(LoopState(trace, results, errors, seen), Aborted, i);
        case Malformed =>
          errors := true;
          trace := trace + [Entry(i + 1, phase, InvalidAction, None, false, None, true)];
        case CallTool(call, execution) =>
          var r := HandleToolCall(config, i, phase, LoopState(trace, results, errors, seen), call, execution);
          if r.Halt? {
            return Outcome(r.st, r.stop, i);
          }
          trace, results, errors, seen := r.st.trace, r.st.results, r.st.errors, r.st.seen;
        case AskOperator(valid, reply) =>
          if !valid {
            errors := true;
            trace := trace + [Entry(i + 1, phase, NeedsOperatorAction, None, false, None, true)];
            continue;
          }
          if reply.Rejected? {
            return Outcome(LoopState(trace, results, errors, seen), OperatorRejected, i);
          }
          if reply.Interrupted? {
            return Outcome(LoopState(trace, results, errors, seen), Aborted, i);
          }
          errors := false;
          trace := trace + [Entry(i + 1, phase, NeedsOperatorAction, None, false, None, false)];
        case Done(payloadValid) =>
          if GateRefuses(config.mode, config.contract, results) || !payloadValid {
            errors := true;
            trace := trace + [Entry(i + 1, phase, Finish, None, false, None, true)];
            continue;
          }
          trace := trace + [Entry(i + 1, phase, Finish, None, false, None, false)];
          return Outcome(LoopState(trace, results, errors, seen), Returned, i);
      }
    }
    outcome := Outcome(LoopState(trace, results, errors, seen), StepsExhausted, config.maxSteps);
  }

  // ----- whole-run facts -----

  ghost predicate ReturnEvidence(config: Config, results: seq<ToolResult>) {
    && VerifiedAfterMutations(results)
    && (config.mode.Strict? || (config.mode.Guided? && !config.contract.OtherContract?) ==> AnySuccess(results))
  }

  function LoggedLast(stop: Stop): nat {
    if stop in {Returned, DuplicateFailure, WaitingApproval} then 1 else 0
  }

  /** A returned result rests on a verification after the last mutation, in every mode. */
  lemma {:induction false} ReturnIsVerifiedFrom(config: Config, oracle: Oracle, i: nat, st: LoopState)
    ensures var o := RunFrom(config, oracle, i, st);
            o.stop.Returned? ==> ReturnEvidence(config, o.st.results)
    decreases config.maxSteps - i
  {
    if i < config.maxSteps {
      GateIff(config.mode, config.contract, st.results);
      var r := Step(config, i, st, oracle(i));
      if r.Continue? {
        ReturnIsVerifiedFrom(config, oracle, i + 1, r.st);
      }
    }
  }

  lemma ReturnIsVerified(config: Config, oracle: Oracle)
    ensures var o := RunLoop(config, oracle);
            o.stop.Returned? ==> ReturnEvidence(config, o.st.results)
  {
    ReturnIsVerifiedFrom(config, oracle, 0, START);
  }

  ghost predicate Attempts(e: Entry, call: Call) {
    e.attempted && e.call == Some(call)
  }

  ghost function AttemptCount(trace: Trace, call: Call): nat {
    if trace == [] then 0
    else AttemptCount(trace[..|trace| - 1], call) + if Attempts(trace[|trace| - 1], call) then 1 else 0
  }

  /** The seen-map counts attempts and never passes the limit. */
  ghost predicate Counts(limit: nat, st: LoopState) {
    forall call: Call :: AttemptCount(st.trace, call) == CountOf(st, call) <= limit
  }

  /** A call is executed at most once. */
  ghost predicate ExecutedOnce(trace: Trace) {
    forall a, b :: 0 <= a < b < |trace| && trace[a].executed.Some? && trace[b].executed.Some? ==>
      trace[a].call != trace[b].call
  }

  /** The trace numbers its steps 1, 2, 3, ... */
  ghost predicate Stepped(trace: Trace) {
    forall k :: 0 <= k < |trace| ==> trace[k].step == k + 1 && WellFormed(trace[k])
  }

  /** What holds between steps. */
  ghost predicate Coherent(config: Config, st: LoopState) {
    Counts(DuplicateLimit(config.mode), st) && st.results == Observations(st.trace) && ExecutedOnce(st.trace)
      && Stepped(st.trace)
  }

  ghost predicate WellFormed(e: Entry) {
    && (e.executed.Some? ==> e.attempted && !e.error)
    && (e.attempted ==> e.action.ToolCall? && e.call.Some?)
    && (e.executed.Some? ==> e.executed.value.toolName == e.call.value.name)
  }

  ghost function Observations(trace: Trace): seq<ToolResult> {
    if trace == [] then []
    else
      var last := trace[|trace| - 1];
      Observations(trace[..|trace| - 1]) + if last.executed.Some? then [last.executed.value] else []
  }

  lemma AppendFacts(trace: Trace, e: Entry, call: Call)
    ensures AttemptCount(trace + [e], call) == AttemptCount(trace, call) + if Attempts(e, call) then 1 else 0
    ensures Observations(trace + [e]) == Observations(trace) + if e.executed.Some? then [e.executed.value] else []
  {
    assert (trace + [e])[..|trace|] == trace;
  }

  lemma {:induction false} NotAttempted(trace: Trace, call: Call, k: nat)
    requires AttemptCount(trace, call) == 0 && k < |trace|
    ensures !Attempts(trace[k], call)
  {
    if k < |trace| - 1 {
      NotAttempted(trace[..|trace| - 1], call, k);
    }
  }

  lemma AppendStepped(trace: Trace, e: Entry)
    requires Stepped(trace) && e.step == |trace| + 1 && WellFormed(e)
    ensures Stepped(trace + [e])
  {
  }

  lemma AppendExecutedOnce(trace: Trace, e: Entry)
    requires ExecutedOnce(trace) && Stepped(trace) && WellFormed(e)
    requires e.executed.Some? ==> AttemptCount(trace, e.call.value) == 0
    ensures ExecutedOnce(trace + [e])
  {
    if e.executed.Some? {
      forall k | 0 <= k < |trace| && trace[k].executed.Some? ensures trace[k].call != e.call {
        assert WellFormed(trace[k]);
        NotAttempted(trace, e.call.value, k);
      }
    }
  }

  /** Logging an entry, with the seen-map raised by one when it is an attempt, keeps the loop coherent. */
  lemma LogCoherent(config: Config, st: LoopState, e: Entry, st': LoopState)
    requires Coherent(config, st) && e.step == |st.trace| + 1 && WellFormed(e)
    requires st'.trace == st.trace + [e]
    requires st'.results == st.results + if e.executed.Some? then [e.executed.value] else []
    requires e.executed.Some? ==> CountOf(st, e.call.value) == 0
    requires e.attempted ==> CountOf(st, e.call.value) < DuplicateLimit(config.mode)
    requires st'.seen == if e.attempted then st.seen[e.call.value := CountOf(st, e.call.value) + 1] else st.seen
    ensures Coherent(config, st')
  {
    forall call: Call ensures AttemptCount(st'.trace, call) == CountOf(st', call) <= DuplicateLimit(config.mode) {
      AppendFacts(st.trace, e, call);
    }
    AppendFacts(st.trace, e, Call("", ""));
    AppendStepped(st.trace, e);
    if e.executed.Some? {
      assert AttemptCount(st.trace, e.call.value) == CountOf(st, e.call.value);
    }
    AppendExecutedOnce(st.trace, e);
  }

  /** At the end one signature may have been tried once more than the limit allows. */
  ghost predicate CoherentAtEnd(config: Config, st: LoopState, stop: Stop) {
    && (forall call: Call ::
          AttemptCount(st.trace, call) <= DuplicateLimit(config.mode) + if stop.DuplicateFailure? then 1 else 0)
    && st.results == Observations(st.trace)
    && ExecutedOnce(st.trace)
    && Stepped(st.trace)
  }

  lemma CoherentIsFinal(config: Config, st: LoopState, stop: Stop)
    requires Coherent(config, st)
    ensures CoherentAtEnd(config, st, stop)
  {
    forall call: Call ensures AttemptCount(st.trace, call) <= DuplicateLimit(config.mode) {
      assert AttemptCount(st.trace, call) == CountOf(st, call);
    }
  }

  lemma RefusedDuplicate(config: Config, st: LoopState, e: Entry, st': LoopState)
    requires Coherent(config, st) && e.step == |st.trace| + 1 && WellFormed(e) && e.executed.None?
    requires st' == Log(st, e, st.errors)
    ensures CoherentAtEnd(config, st', DuplicateFailure)
  {
    forall call: Call ensures AttemptCount(st'.trace, call) <= DuplicateLimit(config.mode) + 1 {
      AppendFacts(st.trace, e, call);
      assert AttemptCount(st.trace, call) == CountOf(st, call);
    }
    AppendFacts(st.trace, e, Call("", ""));
    AppendStepped(st.trace, e);
    AppendExecutedOnce(st.trace, e);
  }

  lemma StepCallCoherent(config: Config, i: nat, phase: Phase, st: LoopState, call: Option<Call>, execution: Execution)
    requires Coherent(config, st) && |st.trace| == i
    ensures StepOutcomeCoherent(config, i, StepCall(config, i, phase, st, call, execution))
  {
    var r := StepCall(config, i, phase, st, call, execution);
    if r.Halt? && r.stop.DuplicateFailure? {
      RefusedDuplicate(config, st, r.st.trace[i], r.st);
    } else if r.Halt? && r.stop.Aborted? {
      forall c: Call ensures AttemptCount(r.st.trace, c) <= DuplicateLimit(config.mode) {
        assert AttemptCount(st.trace, c) == CountOf(st, c);
      }
    } else {
      LogCoherent(config, st, r.st.trace[i], r.st);
      if r.Halt? {
        CoherentIsFinal(config, r.st, r.stop);
      }
    }
  }

  ghost predicate StepOutcomeCoherent(config: Config, i: nat, r: StepResult) {
    match r
    case Continue(st) => Coherent(config, st) && |st.trace| == i + 1
    case Halt(st, stop) => CoherentAtEnd(config, st, stop) && |st.trace| == i + LoggedLast(stop)
  }

  lemma StepCoherent(config: Config, i: nat, st: LoopState, answer: Answer)
    requires Coherent(config, st) && |st.trace| == i
    ensures StepOutcomeCoherent(config, i, Step(config, i, st, answer))
  {
    var r := Step(config, i, st, answer);
    if answer.CallTool? {
      StepCallCoherent(config, i, PhaseOf(config.contract, st), st, answer.call, answer.execution);
    } else if r.Halt? && !r.stop.Returned? {
      CoherentIsFinal(config, st, r.stop);
    } else {
      LogCoherent(config, st, r.st.trace[i], r.st);
      if r.Halt? {
        CoherentIsFinal(config, r.st, r.stop);
      }
    }
  }

  lemma {:induction false} RunCoherentFrom(config: Config, oracle: Oracle, i: nat, st: LoopState)
    requires Coherent(config, st) && |st.trace| == i <= config.maxSteps
    ensures var o := RunFrom(config, oracle, i, st);
            && CoherentAtEnd(config, o.st, o.stop)
            && |o.st.trace| == o.steps + LoggedLast(o.stop)
            && o.steps <= config.maxSteps
    decreases config.maxSteps - i
  {
    if i < config.maxSteps {
      StepCoherent(config, i, st, oracle(i));
      var r := Step(config, i, st, oracle(i));
      if r.Continue? {
        RunCoherentFrom(config, oracle, i + 1, r.st);
      }
    }
  }

  /** No signature is executed twice, none is tried more than limit + 1 times, the results are the trace's
      observations in order, and the trace numbers its finished steps 1, 2, 3, ... with none missing. */
  lemma RunCoherent(config: Config, oracle: Oracle)
    ensures var o := RunLoop(config, oracle);
            && CoherentAtEnd(config, o.st, o.stop)
            && |o.st.trace| == o.steps + LoggedLast(o.stop)
            && o.steps <= config.maxSteps
  {
    RunCoherentFrom(config, oracle, 0, START);
  }

  /** In numbers: a signature is tried at most 3 times in strict, 4 in guided and 5 in autonomous mode. */
  lemma AttemptBounds(config: Config, oracle: Oracle, call: Call)
    ensures AttemptCount(RunLoop(config, oracle).st.trace, call) <=
      match config.mode case Strict => 3 case Guided => 4 case Autonomous => 5
  {
    RunCoherent(config, oracle);
  }

  ghost predicate Repeats(oracle: Oracle, call: Call, ok: bool) {
    forall i :: oracle(i) == CallTool(Some(call), Observed(ok))
  }

  lemma {:induction false} RepeatFrom(config: Config, oracle: Oracle, call: Call, ok: bool, i: nat, st: LoopState)
    requires Repeats(oracle, call, ok) && call.name in DISCOVERY && call.name in config.allowedTools
    requires CountOf(st, call) == i <= DuplicateLimit(config.mode) < config.maxSteps
    ensures RunFrom(config, oracle, i, st).stop.DuplicateFailure?
      && RunFrom(config, oracle, i, st).steps == DuplicateLimit(config.mode)
    decreases config.maxSteps - i
  {
    var phase := PhaseOf(config.contract, st);
    assert call.name in KeepIn(config.allowedTools, PhaseNames(phase));
    assert oracle(i) == CallTool(Some(call), Observed(ok));
    var r := Step(config, i, st, oracle(i));
    if i < DuplicateLimit(config.mode) {
      RepeatFrom(config, oracle, call, ok, i + 1, r.st);
    }
  }

  /** The bound is met: a model that keeps repeating one discovery call is stopped at the attempt after the limit. */
  lemma RepeatingModelIsStopped(config: Config, oracle: Oracle, call: Call, ok: bool)
    requires Repeats(oracle, call, ok) && call.name in DISCOVERY && call.name in config.allowedTools
    requires DuplicateLimit(config.mode) < config.maxSteps
    ensures var o := RunLoop(config, oracle);
            && o.stop.DuplicateFailure?
            && |o.st.trace| == match config.mode case Strict => 3 case Guided => 4 case Autonomous => 5
  {
    RepeatFrom(config, oracle, call, ok, 0, START);
    RunCoherent(config, oracle);
  }

  // ----- tools and phases -----

  /** What the strict filter offers: the tools of the phase, or everything allowed when it would offer nothing. */
  lemma StrictOffersIff(tools: seq<ToolName>, phase: Phase, t: ToolName)
    ensures t in AllowedTools(tools, Strict, phase) <==>
      t in tools && (t in PhaseNames(phase) || forall u :: u in tools ==> u !in PhaseNames(phase))
  {
    var filtered := KeepIn(tools, PhaseNames(phase));
    if filtered != [] {
      assert filtered[0] in filtered;
    }
  }

  /** Every attempted call was offered in the phase it was made in. */
  ghost predicate Offered(config: Config, trace: Trace) {
    forall k :: 0 <= k < |trace| && trace[k].attempted ==>
      trace[k].call.Some? && trace[k].call.value.name in AllowedTools(config.allowedTools, config.mode, trace[k].phase)
  }

  lemma {:induction false} RunOfferedFrom(config: Config, oracle: Oracle, i: nat, st: LoopState)
    requires Offered(config, st.trace)
    ensures Offered(config, RunFrom(config, oracle, i, st).st.trace)
    decreases config.maxSteps - i
  {
    if i < config.maxSteps {
      StepOffered(config, i, st, oracle(i));
      var r := Step(config, i, st, oracle(i));
      if r.Continue? {
        RunOfferedFrom(config, oracle, i + 1, r.st);
      }
    }
  }

  lemma StepOffered(config: Config, i: nat, st: LoopState, answer: Answer)
    requires Offered(config, st.trace)
    ensures Offered(config, Step(config, i, st, answer).st.trace)
  {
  }

  /** In strict mode the inspect phase executes discovery tools only, as long as one is allowed. */
  lemma StrictInspectDiscovers(config: Config, oracle: Oracle, k: nat)
    requires config.mode.Strict? && exists t :: t in config.allowedTools && t in DISCOVERY
    requires var trace := RunLoop(config, oracle).st.trace;
      k < |trace| && trace[k].phase.Inspect? && trace[k].executed.Some?
    ensures RunLoop(config, oracle).st.trace[k].executed.value.toolName in DISCOVERY
  {
    RunOfferedFrom(config, oracle, 0, START);
    RunCoherent(config, oracle);
    var e := RunLoop(config, oracle).st.trace[k];
    assert WellFormed(e);
    StrictOffersIff(config.allowedTools, Inspect, e.call.value.name);
  }

  /** Inspection is not always first: after one malformed answer the repair phase executes a mutation right away. */
  lemma MalformedAnswerOpensMutations(config: Config, oracle: Oracle, call: Call)
    requires config.maxSteps >= 2 && call.name in MUTATION && call.name in config.allowedTools
    requires oracle(0) == Malformed && oracle(1) == CallTool(Some(call), Observed(true))
    ensures var trace := RunLoop(config, oracle).st.trace;
            |trace| >= 2 && ExecutedMutation(trace[1]) && trace[1].phase.Repair? && trace[0].executed.None?
  {
    var one := Step(config, 0, START, oracle(0));
    StrictOffersIff(config.allowedTools, Repair, call.name);
    var two := Step(config, 1, one.st, oracle(1));
    assert two.Continue? && ExecutedMutation(two.st.trace[1]);
    TraceGrows(config, oracle, 2, two.st);
    assert RunLoop(config, oracle) == RunFrom(config, oracle, 1, one.st);
    assert RunFrom(config, oracle, 1, one.st) == RunFrom(config, oracle, 2, two.st);
    var trace := RunLoop(config, oracle).st.trace;
    assert trace[0] == two.st.trace[0] && trace[1] == two.st.trace[1];
  }

  // ----- when inspection comes first -----

  /** No mutation executes before another call has. */
  ghost predicate InspectsFirst(trace: Trace) {
    forall k :: 0 <= k < |trace| && ExecutedMutation(trace[k]) ==> exists j :: 0 <= j < k && trace[j].executed.Some?
  }

  predicate AllowsMutation(tools: seq<ToolName>) {
    exists t :: t in tools && t in MUTATION
  }

  predicate AllowsDiscovery(tools: seq<ToolName>) {
    exists t :: t in tools && t in DISCOVERY
  }

  lemma OfferedIsAllowed(tools: seq<ToolName>, mode: Mode, phase: Phase, t: ToolName)
    requires t in AllowedTools(tools, mode, phase)
    ensures t in tools
  {
  }

  /** The tool filter on a mutation in the first step. */
  lemma FirstStepOffersMutationIff(config: Config, t: ToolName)
    requires t in MUTATION && t in config.allowedTools
    ensures t in AllowedTools(config.allowedTools, config.mode, PhaseOf(config.contract, START))
            <==> !(config.mode.Strict? && AllowsDiscovery(config.allowedTools))
  {
    assert MUTATION !! DISCOVERY;
    if config.mode.Strict? {
      StrictOffersIff(config.allowedTools, Inspect, t);
    }
  }

  /** An executed mutation was offered in its phase. */
  lemma ExecutedMutationOffered(config: Config, oracle: Oracle, k: nat)
    requires var trace := RunLoop(config, oracle).st.trace; k < |trace| && ExecutedMutation(trace[k])
    ensures var e := RunLoop(config, oracle).st.trace[k];
      e.call.Some? && e.call.value.name in MUTATION
        && e.call.value.name in AllowedTools(config.allowedTools, config.mode, e.phase)
  {
    RunOfferedFrom(config, oracle, 0, START);
    RunCoherent(config, oracle);
    assert WellFormed(RunLoop(config, oracle).st.trace[k]);
  }

  /** In every mode "inspection comes first" holds for every behaviour exactly when no mutation tool is allowed; a
      loop of a single step has it also in strict mode with a discovery tool. */
  lemma InspectsFirstIff(config: Config)
    requires config.maxSteps >= 1
    ensures (forall oracle :: InspectsFirst(RunLoop(config, oracle).st.trace)) <==>
      !AllowsMutation(config.allowedTools)
        || (config.maxSteps == 1 && config.mode.Strict? && AllowsDiscovery(config.allowedTools))
  {
    if !AllowsMutation(config.allowedTools) {
      forall oracle ensures InspectsFirst(RunLoop(config, oracle).st.trace) {
        NoMutationAllowed(config, oracle);
      }
    } else {
      var t :| t in config.allowedTools && t in MUTATION;
      if config.mode.Strict? && AllowsDiscovery(config.allowedTools) {
        if config.maxSteps == 1 {
          forall oracle ensures InspectsFirst(RunLoop(config, oracle).st.trace) {
            SingleStepInspects(config, oracle);
          }
        } else {
          var oracle: Oracle := i => if i == 0 then Malformed else CallTool(Some(Call(t, "a")), Observed(true));
          MalformedAnswerOpensMutations(config, oracle, Call(t, "a"));
        }
      } else {
        var oracle: Oracle := i => CallTool(Some(Call(t, "a")), Observed(true));
        MutationOpensRun(config, oracle, Call(t, "a"));
      }
    }
  }

  lemma NoMutationAllowed(config: Config, oracle: Oracle)
    requires !AllowsMutation(config.allowedTools)
    ensures InspectsFirst(RunLoop(config, oracle).st.trace)
  {
    var trace := RunLoop(config, oracle).st.trace;
    forall k | 0 <= k < |trace| ensures !ExecutedMutation(trace[k]) {
      if ExecutedMutation(trace[k]) {
        ExecutedMutationOffered(config, oracle, k);
        OfferedIsAllowed(config.allowedTools, config.mode, trace[k].phase, trace[k].call.value.name);
      }
    }
  }

  lemma SingleStepInspects(config: Config, oracle: Oracle)
    requires config.maxSteps == 1 && config.mode.Strict? && AllowsDiscovery(config.allowedTools)
    ensures InspectsFirst(RunLoop(config, oracle).st.trace)
  {
    var one := Step(config, 0, START, oracle(0));
    assert one.Continue? ==> RunFrom(config, oracle, 1, one.st).st == one.st;
    StepAppends(config, 0, START, oracle(0));
    StepFollowsComplaint(config, 0, START, oracle(0));
    assert |one.st.trace| <= 1 && RunLoop(config, oracle).st.trace == one.st.trace;
    assert one.st.trace != [] ==> NothingExecuted(one.st.trace, 0);
  }

  lemma MutationOpensRun(config: Config, oracle: Oracle, call: Call)
    requires config.maxSteps >= 1 && call.name in MUTATION && call.name in config.allowedTools
    requires !(config.mode.Strict? && AllowsDiscovery(config.allowedTools))
      && oracle(0) == CallTool(Some(call), Observed(true))
    ensures !InspectsFirst(RunLoop(config, oracle).st.trace)
  {
    FirstStepOffersMutationIff(config, call.name);
    var one := Step(config, 0, START, oracle(0));
    assert one.Continue? && ExecutedMutation(one.st.trace[0]);
    TraceGrows(config, oracle, 1, one.st);
    assert RunLoop(config, oracle) == RunFrom(config, oracle, 1, one.st);
    assert RunLoop(config, oracle).st.trace[0] == one.st.trace[0];
  }

  /** The guard: before anything executed, the strict filter offers a mutation exactly while a complaint is pending. */
  lemma MutationBeforeInspectionIff(config: Config, st: LoopState, t: ToolName)
    requires config.mode.Strict? && AllowsDiscovery(config.allowedTools) && st.results == [] && t in MUTATION
    ensures t in AllowedTools(config.allowedTools, Strict, PhaseOf(config.contract, st)) <==>
      t in config.allowedTools && st.errors
  {
    assert MUTATION !! DISCOVERY;
    StrictOffersIff(config.allowedTools, PhaseOf(config.contract, st), t);
  }

  ghost predicate NothingExecuted(trace: Trace, n: nat)
    requires n <= |trace|
  {
    forall j :: 0 <= j < n ==> trace[j].executed.None?
  }

  /** A mutation that executes before everything else directly follows an entry with a complaint. */
  ghost predicate FirstMutationFollowsComplaint(trace: Trace) {
    forall k :: 0 <= k < |trace| && ExecutedMutation(trace[k]) && NothingExecuted(trace, k) ==>
      k > 0 && trace[k - 1].error
  }

  /** The pending complaint is the last entry's, and the results are empty exactly when nothing executed. */
  ghost predicate TracksComplaint(st: LoopState) {
    && st.errors == (st.trace != [] && st.trace[|st.trace| - 1].error)
    && (NothingExecuted(st.trace, |st.trace|) ==> st.results == [])
  }

  lemma StepTracksComplaint(config: Config, i: nat, st: LoopState, answer: Answer)
    requires TracksComplaint(st) && Step(config, i, st, answer).Continue?
    ensures TracksComplaint(Step(config, i, st, answer).st)
  {
    var st' := Step(config, i, st, answer).st;
    assert |st'.trace| == |st.trace| + 1;
    assert forall j :: 0 <= j < |st.trace| ==> st'.trace[j] == st.trace[j];
    if NothingExecuted(st'.trace, |st'.trace|) {
      assert st'.trace[|st.trace|].executed.None?;
      assert NothingExecuted(st.trace, |st.trace|);
    }
  }

  lemma AppendFollowsComplaint(trace: Trace, e: Entry)
    requires FirstMutationFollowsComplaint(trace)
    requires ExecutedMutation(e) && NothingExecuted(trace, |trace|) ==> trace != [] && trace[|trace| - 1].error
    ensures FirstMutationFollowsComplaint(trace + [e])
  {
    var t := trace + [e];
    forall k | 0 <= k < |t| && ExecutedMutation(t[k]) && NothingExecuted(t, k) ensures k > 0 && t[k - 1].error {
      assert forall j :: 0 <= j < k ==> t[j] == trace[j];
      assert NothingExecuted(trace, k);
    }
  }

  lemma StepFollowsComplaint(config: Config, i: nat, st: LoopState, answer: Answer)
    requires config.mode.Strict? && AllowsDiscovery(config.allowedTools) && TracksComplaint(st)
      && FirstMutationFollowsComplaint(st.trace)
    ensures FirstMutationFollowsComplaint(Step(config, i, st, answer).st.trace)
  {
    StepAppends(config, i, st, answer);
    var st' := Step(config, i, st, answer).st;
    if st'.trace != st.trace {
      var e := st'.trace[|st.trace|];
      if ExecutedMutation(e) && NothingExecuted(st.trace, |st.trace|) {
        MutationBeforeInspectionIff(config, st, answer.call.value.name);
      }
      AppendFollowsComplaint(st.trace, e);
    }
  }

  lemma {:induction false} ComplaintFirstFrom(config: Config, oracle: Oracle, i: nat, st: LoopState)
    requires config.mode.Strict? && AllowsDiscovery(config.allowedTools) && TracksComplaint(st)
      && FirstMutationFollowsComplaint(st.trace)
    ensures FirstMutationFollowsComplaint(RunFrom(config, oracle, i, st).st.trace)
    decreases config.maxSteps - i
  {
    if i < config.maxSteps {
      StepFollowsComplaint(config, i, st, oracle(i));
      var r := Step(config, i, st, oracle(i));
      if r.Continue? {
        StepTracksComplaint(config, i, st, oracle(i));
        ComplaintFirstFrom(config, oracle, i + 1, r.st);
      }
    }
  }

  /** Over every strict run with a discovery tool: if the first executed call is a mutation, the entry before it
      carries a complaint. */
  lemma ComplaintFirst(config: Config, oracle: Oracle)
    requires config.mode.Strict? && AllowsDiscovery(config.allowedTools)
    ensures FirstMutationFollowsComplaint(RunLoop(config, oracle).st.trace)
  {
    ComplaintFirstFrom(config, oracle, 0, START);
  }

  // ----- mutations in strict mode -----

  ghost predicate ExecutedMutation(e: Entry) {
    e.executed.Some? && e.executed.value.toolName in MUTATION
  }

  ghost predicate SuccessfulMutation(e: Entry) {
    e.executed.Some? && Mutates(e.executed.value)
  }

  ghost predicate CanInspectOrVerify(tools: seq<ToolName>) {
    exists t :: t in tools && t in DISCOVERY + VERIFICATION
  }

  /** No successful mutation is directly followed by an executed mutation. */
  ghost predicate NoMutationTwiceInARow(trace: Trace) {
    forall k :: 0 <= k < |trace| - 1 && SuccessfulMutation(trace[k]) ==> !ExecutedMutation(trace[k + 1])
  }

  /** After a successful mutation, the last result is that mutation and no complaint is pending. */
  ghost predicate MutationPending(st: LoopState) {
    st.trace != [] && SuccessfulMutation(st.trace[|st.trace| - 1]) ==>
      !st.errors && st.results != [] && Mutates(st.results[|st.results| - 1])
  }

  lemma MutationMeansVerifyPhase(contract: Contract, st: LoopState)
    requires !st.errors && st.results != [] && Mutates(st.results[|st.results| - 1])
    ensures PhaseOf(contract, st).Verify?
  {
    var last := |st.results| - 1;
    assert MUTATION * VERIFICATION == {};
    assert LastToolIndex(st.results, MUTATION) == last;
    assert LastToolIndex(st.results, VERIFICATION) != last;
  }

  /** In strict mode the verify phase offers a mutation tool exactly when nothing else is allowed. */
  lemma VerifyPhaseOffersMutationIff(tools: seq<ToolName>, t: ToolName)
    requires t in MUTATION
    ensures t in AllowedTools(tools, Strict, Verify) <==> t in tools && !CanInspectOrVerify(tools)
  {
    var filtered := KeepIn(tools, PhaseNames(Verify));
    assert MUTATION !! DISCOVERY + VERIFICATION;
    if filtered != [] {
      assert filtered[0] in filtered;
    }
  }

  /** Checkable before the run: some discovery or verification tool is allowed, or no mutation tool is. */
  ghost predicate KeepsMutationsApart(tools: seq<ToolName>) {
    CanInspectOrVerify(tools) || forall t :: t in tools ==> t !in MUTATION
  }

  lemma AppendApart(trace: Trace, e: Entry)
    requires NoMutationTwiceInARow(trace)
    requires trace != [] && SuccessfulMutation(trace[|trace| - 1]) ==> !ExecutedMutation(e)
    ensures NoMutationTwiceInARow(trace + [e])
  {
    var t := trace + [e];
    forall k | 0 <= k < |t| - 1 && SuccessfulMutation(t[k]) ensures !ExecutedMutation(t[k + 1]) {
      assert t[k] == trace[k];
      if k + 1 < |trace| {
        assert t[k + 1] == trace[k + 1];
      }
    }
  }

  /** The verify phase executes no mutation. */
  lemma VerifyPhaseExecutesNoMutation(config: Config, i: nat, st: LoopState, answer: Answer)
    requires config.mode.Strict? && KeepsMutationsApart(config.allowedTools)
    requires PhaseOf(config.contract, st).Verify?
    ensures var st' := Step(config, i, st, answer).st;
            st'.trace == st.trace || (|st'.trace| == |st.trace| + 1 && !ExecutedMutation(st'.trace[|st.trace|]))
  {
    if answer.CallTool? && answer.call.Some? && answer.call.value.name in MUTATION {
      VerifyPhaseOffersMutationIff(config.allowedTools, answer.call.value.name);
    }
  }

  lemma StepAppends(config: Config, i: nat, st: LoopState, answer: Answer)
    ensures var t := Step(config, i, st, answer).st.trace;
            t == st.trace || (|t| == |st.trace| + 1 && t == st.trace + [t[|st.trace|]])
  {
  }

  lemma StepKeepsMutationsApart(config: Config, i: nat, st: LoopState, answer: Answer)
    requires config.mode.Strict? && KeepsMutationsApart(config.allowedTools)
    requires MutationPending(st) && NoMutationTwiceInARow(st.trace)
    ensures NoMutationTwiceInARow(Step(config, i, st, answer).st.trace)
  {
    StepAppends(config, i, st, answer);
    var st' := Step(config, i, st, answer).st;
    if st'.trace != st.trace {
      if st.trace != [] && SuccessfulMutation(st.trace[|st.trace| - 1]) {
        MutationMeansVerifyPhase(config.contract, st);
        VerifyPhaseExecutesNoMutation(config, i, st, answer);
      }
      AppendApart(st.trace, st'.trace[|st.trace|]);
    }
  }

  lemma StepMutationPending(config: Config, i: nat, st: LoopState, answer: Answer)
    requires Step(config, i, st, answer).Continue?
    ensures MutationPending(Step(config, i, st, answer).st)
  {
  }

  lemma {:induction false} SeparatesMutationsFrom(config: Config, oracle: Oracle, i: nat, st: LoopState)
    requires config.mode.Strict? && KeepsMutationsApart(config.allowedTools)
    requires MutationPending(st) && NoMutationTwiceInARow(st.trace)
    ensures NoMutationTwiceInARow(RunFrom(config, oracle, i, st).st.trace)
    decreases config.maxSteps - i
  {
    if i < config.maxSteps {
      StepKeepsMutationsApart(config, i, st, oracle(i));
      var r := Step(config, i, st, oracle(i));
      if r.Continue? {
        StepMutationPending(config, i, st, oracle(i));
        SeparatesMutationsFrom(config, oracle, i + 1, r.st);
      }
    }
  }

  /** In strict mode no model behaviour runs a mutation right after a successful one, exactly when the allowed tools
      satisfy the condition. */
  lemma StrictSeparatesMutationsIff(config: Config)
    requires config.mode.Strict? && config.maxSteps >= 2
    ensures (forall oracle :: NoMutationTwiceInARow(RunLoop(config, oracle).st.trace)) <==>
      KeepsMutationsApart(config.allowedTools)
  {
    if KeepsMutationsApart(config.allowedTools) {
      forall oracle ensures NoMutationTwiceInARow(RunLoop(config, oracle).st.trace) {
        SeparatesMutationsFrom(config, oracle, 0, START);
      }
    } else {
      var t :| t in config.allowedTools && t in MUTATION;
      var oracle: Oracle := i => CallTool(Some(Call(t, if i == 0 then "a" else "b")), Observed(true));
      FallbackAllowsMutationsInARow(config, oracle, t);
    }
  }

  lemma NoMembers(s: seq<ToolName>)
    ensures s == [] || exists t :: t in s
  {
    if s != [] {
      assert s[0] in s;
    }
  }

  /** Without such a tool the filter falls back to every allowed tool, and two different calls of an allowed mutation
      tool run back to back. */
  lemma FallbackAllowsMutationsInARow(config: Config, oracle: Oracle, t: ToolName)
    requires config.mode.Strict? && !CanInspectOrVerify(config.allowedTools) && config.maxSteps >= 2
    requires t in MUTATION && t in config.allowedTools
    requires oracle(0) == CallTool(Some(Call(t, "a")), Observed(true))
      && oracle(1) == CallTool(Some(Call(t, "b")), Observed(true))
    ensures !NoMutationTwiceInARow(RunLoop(config, oracle).st.trace)
  {
    var filtered := KeepIn(config.allowedTools, PhaseNames(Inspect));
    NoMembers(filtered);
    var a, b := Call(t, "a"), Call(t, "b");
    assert a.arguments[0] != b.arguments[0];
    var one := Step(config, 0, START, oracle(0));
    assert one.Continue? && SuccessfulMutation(one.st.trace[0]);
    MutationMeansVerifyPhase(config.contract, one.st);
    VerifyPhaseOffersMutationIff(config.allowedTools, t);
    var two := Step(config, 1, one.st, oracle(1));
    assert two.Continue? && ExecutedMutation(two.st.trace[1]);
    TraceGrows(config, oracle, 2, two.st);
    assert RunLoop(config, oracle) == RunFrom(config, oracle, 1, one.st);
    assert RunLoop(config, oracle) == RunFrom(config, oracle, 2, two.st);
    var trace := RunLoop(config, oracle).st.trace;
    assert trace[0] == two.st.trace[0] && trace[1] == two.st.trace[1];
  }

  lemma {:induction false} TraceGrows(config: Config, oracle: Oracle, i: nat, st: LoopState)
    ensures st.trace <= RunFrom(config, oracle, i, st).st.trace
    decreases config.maxSteps - i
  {
    if i < config.maxSteps {
      var r := Step(config, i, st, oracle(i));
      if r.Continue? {
        TraceGrows(config, oracle, i + 1, r.st);
      }
    }
  }

  // ----- training transitions -----

  datatype Transition = Transition(step: nat, phase: Phase, action: ActionKind, toolName: Option<ToolName>, ok: bool)

  function TransitionOf(e: Entry): Transition {
    Transition(e.step, e.phase, e.action, if e.call.Some? then Some(e.call.value.name) else None, !e.error)
  }

  /** Every entry the loop writes has one of the four exported actions, so none is skipped. */
  method TrainingTransitions(trace: Trace) returns (r: seq<Transition>)
    ensures |r| == |trace|
    ensures forall k :: 0 <= k < |trace| ==> r[k] == TransitionOf(trace[k])
    ensures forall k :: 0 <= k < |trace| ==>
              r[k].step == trace[k].step && r[k].phase == trace[k].phase && r[k].action == trace[k].action
              && (r[k].ok <==> !trace[k].error)
              && (r[k].toolName == if trace[k].call == None then None else Some(trace[k].call.value.name))
  {
    r := [];
    for k := 0 to |trace|
      invariant |r| == k
      invariant forall j :: 0 <= j < k ==> r[j] == TransitionOf(trace[j])
    {
      var action := trace[k].action;
      if action.ToolCall? || action.Finish? || action.NeedsOperatorAction? || action.InvalidAction? {
        r := r + [TransitionOf(trace[k])];
      }
    }
  }
}

/** The Fabricator run file, its guards, and the writes each command makes to it. */
module FabricatorModel {
  import opened Options
  import opened Sequences

  type Id = string

  datatype Status =
    | Started | ExpertDispatchReady | ExpertAgentsStarted | ExpertCollected | SynthesisReady
    | ChallengePromptsRendered | ChallengeDispatchReady | ChallengeAgentsStarted | ChallengeCollected
    | DecisionReady | ImplementationReady | ReviewDispatchReady | ReviewAgentStarted | ReviewCollected
    | Completed | Blocked | Cancelled | PromptsRendered

  datatype RunMode = PlanPatch | PlanOnly | ReviewOnly

  datatype Policy = Manual | Conditional | Auto

  datatype Phase = Expert | Challenge | Review

  datatype AgentStatus = Expected | Active | Finished | Failed

  datatype FailureKind = MissingResponse | InvalidResponse | OverdueAgent | FailedAgent

  datatype Failure = Failure(phase: Phase, expert: Id, kind: FailureKind)

  datatype Synthesis = Synthesis(required: bool, candidates: seq<Id>)

  datatype Traceability = Traceability(unresolved: seq<Id>, unreferenced: seq<Id>)

  type Agents = map<(Phase, Id), AgentStatus>

  /** `run.json`. Agent records are keyed by phase and expert; failures are kept as a set. */
  datatype Run = Run(
    status: Status,
    mode: RunMode,
    policy: Policy,
    experts: seq<Id>,
    maxChallenge: nat,
    navRequired: bool,
    navReady: bool,
    challengeRequired: bool,
    rounds: seq<seq<Id>>,
    agents: Agents,
    failures: set<Failure>,
    synthesis: Option<Synthesis>,
    reviewers: seq<Id>,
    traceability: Option<Traceability>,
    reviewBlockers: seq<Id>)

  // ----- what a command finds outside run.json -----

  datatype Verdict = VerdictProceed | VerdictRevise | VerdictBlock

  datatype Response = Response(verdict: Verdict, blockers: bool, challenged: bool, uncertain: bool)

  /** A response's JSON file: absent, rejected by parsing or payload validation, or valid. */
  datatype Json = Absent | Bad | Good(response: Response)

  datatype ResponseFile = ResponseFile(markdown: bool, json: Json)

  /** A traceability item: whether its resolution is valid and whether an Arbiter document mentions it. */
  datatype TraceItem = TraceItem(id: Id, resolved: bool, referenced: bool)

  datatype Env = Env(
    navEvidence: bool,
    maxActive: nat,
    memoryOk: bool,
    knownExperts: set<Id>,
    briefExists: bool,
    files: (Phase, Id) -> ResponseFile,
    overdue: (Phase, Id) -> bool,
    traceReadable: bool,
    items: seq<TraceItem>)

  datatype Result = ReadyForHumanReview | ResultBlocked | ResultCancelled

  datatype Command =
    | RenderPrompts
    | RenderChallengePrompts(ids: seq<Id>)
    | DispatchExperts
    | ValidateResponses(phase: Phase)
    | Synthesize
    | DispatchChallenge
    | TraceDecision
    | MarkDecisionReady
    | MarkImplementationReady
    | DispatchReview
    | AgentStarted(phase: Phase, expert: Id)
    | AgentCompleted(phase: Phase, expert: Id)
    | AgentFailed(phase: Phase, expert: Id)
    | AgentTimeouts
    | NextStep
    | Summary
    | Finalize(result: Result)

  // ----- guards -----

  const TERMINAL: set<Status> := {Completed, Blocked, Cancelled}

  function PhaseAllowed(phase: Phase): set<Status> {
    match phase
    case Expert => {ExpertDispatchReady, ExpertAgentsStarted}
    case Challenge => {ChallengeDispatchReady, ChallengeAgentsStarted}
    case Review => {ReviewDispatchReady, ReviewAgentStarted, ReviewCollected}
  }

  /** `COMMAND_ALLOWED_STATUSES`; `None` for commands without an entry. */
  function AllowedStatuses(cmd: Command): Option<set<Status>> {
    match cmd
    case DispatchExperts => Some({Started})
    case ValidateResponses(phase) => Some(PhaseAllowed(phase))
    case Synthesize => Some({ExpertCollected})
    case DispatchChallenge => Some({SynthesisReady})
    case MarkDecisionReady => Some({SynthesisReady, ChallengeCollected})
    case MarkImplementationReady => Some({DecisionReady})
    case DispatchReview => Some({DecisionReady, ImplementationReady})
    case Finalize(ReadyForHumanReview) => Some({DecisionReady, ReviewCollected, ImplementationReady})
    case _ => None
  }

  /** `ensure_command_allowed` does not raise. */
  predicate CommandAllowed(r: Run, cmd: Command) {
    r.status !in TERMINAL && (AllowedStatuses(cmd).Some? ==> r.status in AllowedStatuses(cmd).value)
  }

  /** `ensure_agent_event_allowed` and `ensure_expected_agent` do not raise. */
  predicate AgentEventAllowed(r: Run, phase: Phase, expert: Id) {
    r.status !in TERMINAL && r.status in PhaseAllowed(phase) && (phase, expert) in r.agents
  }

  /** `list_active_agents`. */
  function ActiveAgents(agents: Agents): set<(Phase, Id)> {
    set key | key in agents && agents[key] == Active
  }

  /** `record_check` does not raise when `extra` agents are about to start. */
  predicate ResourcesAllow(r: Run, env: Env, extra: nat) {
    |ActiveAgents(r.agents)| + extra <= env.maxActive && env.memoryOk
  }

  predicate NavReady(r: Run, env: Env) {
    !r.navRequired || env.navEvidence
  }

  // ----- pieces of the run updates -----

  function StartedStatus(phase: Phase): Status {
    match phase
    case Expert => ExpertAgentsStarted
    case Challenge => ChallengeAgentsStarted
    case Review => ReviewAgentStarted
  }

  function CollectedStatus(phase: Phase): Status {
    match phase case Expert => ExpertCollected case Challenge => ChallengeCollected case Review => ReviewCollected
  }

  /** `register_dispatch`: a fresh expected record for every dispatched expert. */
  function Register(agents: Agents, phase: Phase, ids: seq<Id>): Agents {
    if ids == [] then agents
    else Register(agents, phase, ids[..|ids| - 1])[(phase, ids[|ids| - 1]) := Expected]
  }

  function WithFailure(r: Run, phase: Phase, expert: Id, kind: FailureKind): Run {
    r.(failures := r.failures + {Failure(phase, expert, kind)})
  }

  /** `clear_agent_failures` with the kinds an accepted response settles. */
  function ClearFailures(failures: set<Failure>, phase: Phase, expert: Id): set<Failure> {
    set f | f in failures && !(f.phase == phase && f.expert == expert
      && f.kind in {InvalidResponse, MissingResponse, OverdueAgent})
  }

  function MarkCompleted(r: Run, phase: Phase, expert: Id): Run {
    r.(agents := r.agents[(phase, expert) := Finished], failures := ClearFailures(r.failures, phase, expert))
  }

  /** `collect_failures`: overdue agents join the recorded failures. */
  function CollectFailures(r: Run, env: Env): set<Failure> {
    r.failures + set key | key in r.agents && r.agents[key] !in {Finished, Failed} && env.overdue(key.0, key.1)
                   :: Failure(key.0, key.1, OverdueAgent)
  }

  function ExpectedIds(r: Run, phase: Phase): seq<Id> {
    match phase
    case Expert => r.experts
    case Challenge => if r.rounds == [] then [] else r.rounds[|r.rounds| - 1]
    case Review => r.reviewers
  }

  function Dedupe(ids: seq<Id>): (r: seq<Id>)
    ensures forall x :: x in r <==> x in ids
    ensures |r| <= |ids|
  {
    if ids == [] then []
    else
      var front, last := Dedupe(ids[..|ids| - 1]), ids[|ids| - 1];
      if last in front then front else front + [last]
  }

  function Prefix(ids: seq<Id>, n: nat): (r: seq<Id>)
    ensures |r| <= n && r <= ids && forall x :: x in r ==> x in ids
  {
    if |ids| <= n then ids else ids[..n]
  }

  function ResponseOf(env: Env, phase: Phase, id: Id): Option<Response> {
    match env.files(phase, id).json
    case Good(response) => Some(response)
    case _ => None
  }

  /** Experts of the list whose valid response has the given trait. */
  function Having(env: Env, phase: Phase, ids: seq<Id>, property: Response -> bool): (r: seq<Id>)
    ensures forall x :: x in r <==>
      x in ids && ResponseOf(env, phase, x).Some? && property(ResponseOf(env, phase, x).value)
  {
    if ids == [] then []
    else
      var rest, first := Having(env, phase, ids[1..], property), ResponseOf(env, phase, ids[0]);
      if first.Some? && property(first.value) then [ids[0]] + rest else rest
  }

  predicate Blocking(x: Response) {
    x.verdict.VerdictBlock? || x.blockers
  }

  predicate Challenges(x: Response) {
    x.challenged
  }

  predicate Uncertain(x: Response) {
    x.uncertain
  }

  /** `build_synthesis`. Conflicting verdicts imply a blocking one, so that reason adds no case. */
  function BuildSynthesis(r: Run, env: Env): Synthesis {
    var blockers := Having(env, Expert, r.experts, Blocking);
    var challenged := Having(env, Expert, r.experts, Challenges);
    var uncertain := Having(env, Expert, r.experts, Uncertain);
    var required := r.policy.Auto?
      || (r.policy.Conditional? && (blockers != [] || challenged != [] || uncertain != []));
    var named := Dedupe(blockers + challenged + uncertain);
    Synthesis(required, Prefix(if required && named == [] then r.experts else named, r.maxChallenge))
  }

  function SelectChallengeExperts(r: Run): seq<Id>
    requires r.synthesis.Some?
  {
    var candidates := KeepIn(r.synthesis.value.candidates, Members(r.experts));
    Prefix(if candidates == [] then r.experts else candidates, r.maxChallenge)
  }

  function ChooseReviewer(experts: seq<Id>): Option<Id> {
    if "red_team_reviewer" in experts then Some("red_team_reviewer")
    else if "qa_test_strategist" in experts then Some("qa_test_strategist")
    else if experts != [] then Some(experts[0])
    else None
  }

  function Unresolved(items: seq<TraceItem>): (r: seq<Id>)
    ensures r == [] <==> forall k :: 0 <= k < |items| ==> items[k].resolved
  {
    if items == [] then []
    else
      assert forall k :: 1 <= k < |items| ==> items[k] == items[1..][k - 1];
      assert forall k :: 0 <= k < |items| - 1 ==> items[1..][k] == items[k + 1];
      if items[0].resolved then Unresolved(items[1..]) else [items[0].id] + Unresolved(items[1..])
  }

  function Unreferenced(items: seq<TraceItem>): (r: seq<Id>)
    ensures r == [] <==> forall k :: 0 <= k < |items| ==> items[k].resolved ==> items[k].referenced
  {
    if items == [] then []
    else
      assert forall k :: 1 <= k < |items| ==> items[k] == items[1..][k - 1];
      assert forall k :: 0 <= k < |items| - 1 ==> items[1..][k] == items[k + 1];
      if items[0].resolved && !items[0].referenced then [items[0].id] + Unreferenced(items[1..])
        else Unreferenced(items[1..])
  }

  function Trace(env: Env): Traceability {
    Traceability(Unresolved(env.items), Unreferenced(env.items))
  }

  // ----- effects: the successive contents written to run.json, and whether the command succeeded -----

  datatype Effect = Effect(writes: seq<Run>, ok: bool)

  const REFUSED := Effect([], false)

  function After(r: Run, e: Effect): Run {
    if e.writes == [] then r else e.writes[|e.writes| - 1]
  }

  function RenderChallengeEffect(r: Run, env: Env, ids: seq<Id>): Effect {
    var unique := Dedupe(ids);
    if unique == [] || (exists x :: x in unique && (x !in env.knownExperts || x !in r.experts))
       || |unique| > r.maxChallenge || !env.briefExists || r.rounds != [] then REFUSED
    else Effect([r.(rounds := [unique], challengeRequired := true, status := ChallengePromptsRendered)], true)
  }

  function DispatchEffect(r: Run, env: Env, phase: Phase, ids: seq<Id>, status: Status): Effect {
    if exists x :: x in ids && x !in env.knownExperts then REFUSED
    else Effect([r.(agents := Register(r.agents, phase, ids), status := status)], true)
  }

  /** The expert's response is complete and valid, and the agent may complete. */
  predicate Accepts(r: Run, env: Env, phase: Phase, id: Id) {
    env.files(phase, id).markdown && env.files(phase, id).json.Good? && AgentEventAllowed(r, phase, id)
  }

  /** What is written for any other response: its failure, or nothing when the agent may not complete. */
  function RejectionWrites(r: Run, env: Env, phase: Phase, id: Id): seq<Run> {
    var file := env.files(phase, id);
    if !file.markdown || file.json.Absent? then [WithFailure(r, phase, id, MissingResponse)]
    else if file.json.Bad? then [WithFailure(r, phase, id, InvalidResponse)]
    else []
  }

  /** `validate_phase_responses` from the k-th expected expert on. */
  function ValidateFrom(r: Run, env: Env, phase: Phase, ids: seq<Id>, k: nat): Effect
    requires k <= |ids|
    decreases |ids| - k
  {
    if k == |ids| then
      Effect([r.(status := CollectedStatus(phase),
                 reviewBlockers := if phase.Review? then Having(env, phase, ids, Blocking)
                   else r.reviewBlockers)], true)
    else if !Accepts(r, env, phase, ids[k]) then Effect(RejectionWrites(r, env, phase, ids[k]), false)
    else
      var done := MarkCompleted(r, phase, ids[k]);
      var rest := ValidateFrom(done, env, phase, ids, k + 1);
      Effect([done] + rest.writes, rest.ok)
  }

  function DispatchChallengeEffect(r: Run, env: Env): Effect {
    if r.synthesis.None? || !r.synthesis.value.required then REFUSED
    else
      var ids := SelectChallengeExperts(r);
      var rendered := RenderChallengeEffect(r, env, ids);
      if !rendered.ok then REFUSED
      else
        var r1 := After(r, rendered);
        if !ResourcesAllow(r1, env, 0) then Effect([r1], false)
        else
          var dispatched := DispatchEffect(r1, env, Challenge, ids, ChallengeDispatchReady);
          Effect([r1] + dispatched.writes, dispatched.ok)
  }

  function AgentStartedEffect(r: Run, env: Env, phase: Phase, expert: Id): Effect {
    if !AgentEventAllowed(r, phase, expert) then REFUSED
    else if !ResourcesAllow(r, env, if r.agents[(phase, expert)] == Active then 0 else 1) then REFUSED
    else Effect([r.(agents := r.agents[(phase, expert) := Active], status := StartedStatus(phase))], true)
  }

  function RefreshEffect(r: Run, refreshed: Run, always: bool): Effect {
    Effect(if always || refreshed.failures != r.failures then [refreshed] else [], true)
  }

  function DispatchExpertsEffect(r: Run, env: Env): Effect {
    if !NavReady(r, env) || !CommandAllowed(r, DispatchExperts) || !ResourcesAllow(r, env, 0)
      || r.experts == [] then REFUSED
    else DispatchEffect(r.(navReady := true), env, Expert, r.experts, ExpertDispatchReady)
  }

  function ValidateEffect(r: Run, env: Env, phase: Phase): Effect {
    if !CommandAllowed(r, ValidateResponses(phase)) || ExpectedIds(r, phase) == [] then REFUSED
    else ValidateFrom(r, env, phase, ExpectedIds(r, phase), 0)
  }

  function SynthesizeEffect(r: Run, env: Env): Effect {
    if !CommandAllowed(r, Synthesize) || (exists x :: x in r.experts && !env.files(Expert, x).json.Good?) then REFUSED
    else
      var s := BuildSynthesis(r, env);
      Effect([r.(synthesis := Some(s), challengeRequired := s.required, status := SynthesisReady)], true)
  }

  function DecisionEffect(r: Run, env: Env): Effect {
    if !NavReady(r, env) || !env.traceReadable then REFUSED
    else
      var r1 := r.(navReady := true, traceability := Some(Trace(env)));
      if Trace(env) != Traceability([], []) || !CommandAllowed(r1, MarkDecisionReady) then Effect([r1], false)
      else Effect([r1, r1.(status := DecisionReady)], true)
  }

  function DispatchReviewEffect(r: Run, env: Env): Effect {
    if !CommandAllowed(r, DispatchReview) || !ResourcesAllow(r, env, 0) || ChooseReviewer(r.experts).None? then REFUSED
    else
      var reviewer := ChooseReviewer(r.experts).value;
      DispatchEffect(r.(reviewers := [reviewer]), env, Review, [reviewer], ReviewDispatchReady)
  }

  function AgentCompletedEffect(r: Run, env: Env, phase: Phase, expert: Id): Effect {
    if !AgentEventAllowed(r, phase, expert) then REFUSED
    else
      var file := env.files(phase, expert);
      if !file.markdown || file.json.Absent? then Effect([WithFailure(r, phase, expert, MissingResponse)], false)
      else Effect([MarkCompleted(r, phase, expert)], true)
  }

  function AgentFailedEffect(r: Run, phase: Phase, expert: Id): Effect {
    if !AgentEventAllowed(r, phase, expert) then REFUSED
    else Effect([WithFailure(r.(agents := r.agents[(phase, expert) := Failed]), phase, expert, FailedAgent)], true)
  }

  function FinalizeEffect(r: Run, result: Result): Effect {
    if result.ReadyForHumanReview? then
      if !CommandAllowed(r, Finalize(result)) || r.reviewBlockers != [] then REFUSED
        else Effect([r.(status := Completed)], true)
    else if r.status in TERMINAL then REFUSED
    else Effect([r.(status := if result.ResultBlocked? then Blocked else Cancelled)], true)
  }

  function EffectOf(cmd: Command, env: Env, r: Run): Effect {
    match cmd
    case RenderPrompts => Effect([r.(status := PromptsRendered)], true)
    case RenderChallengePrompts(ids) => RenderChallengeEffect(r, env, ids)
    case DispatchExperts => DispatchExpertsEffect(r, env)
    case ValidateResponses(phase) => ValidateEffect(r, env, phase)
    case Synthesize => SynthesizeEffect(r, env)
    case DispatchChallenge => if !CommandAllowed(r, cmd) then REFUSED else DispatchChallengeEffect(r, env)
    case TraceDecision => if !env.traceReadable then REFUSED else Effect([r.(traceability := Some(Trace(env)))], true)
    case MarkDecisionReady => DecisionEffect(r, env)
    case MarkImplementationReady => if !CommandAllowed(r, cmd) then REFUSED
      else Effect([r.(status := ImplementationReady)], true)
    case DispatchReview => DispatchReviewEffect(r, env)
    case AgentStarted(phase, expert) => AgentStartedEffect(r, env, phase, expert)
    case AgentCompleted(phase, expert) => AgentCompletedEffect(r, env, phase, expert)
    case AgentFailed(phase, expert) => AgentFailedEffect(r, phase, expert)
    case AgentTimeouts => RefreshEffect(r, r.(failures := CollectFailures(r, env)), false)
    case NextStep => RefreshEffect(r, r.(navReady := NavReady(r, env), failures := CollectFailures(r, env)), true)
    case Summary => RefreshEffect(r, r.(navReady := NavReady(r, env), failures := CollectFailures(r, env)), false)
    case Finalize(result) => FinalizeEffect(r, result)
  }

  // ----- the guide -----

  /** `build_next_action`'s command, from the run's failures and status; `None` asks for the Arbiter. */
  function NextCommand(r: Run): Option<Command> {
    if r.failures != {} || r.reviewBlockers != [] then None
    else
      match r.status
      case Started => if r.navRequired && !r.navReady then None else Some(DispatchExperts)
      case ExpertAgentsStarted => Some(ValidateResponses(Expert))
      case ExpertCollected => Some(Synthesize)
      case SynthesisReady => if r.challengeRequired then Some(DispatchChallenge) else None
      case ChallengeAgentsStarted => Some(ValidateResponses(Challenge))
      case DecisionReady => if r.mode.PlanOnly? then Some(Finalize(ReadyForHumanReview)) else None
      case ImplementationReady => Some(DispatchReview)
      case ReviewAgentStarted => Some(ValidateResponses(Review))
      case ReviewCollected => Some(Finalize(ReadyForHumanReview))
      case _ => None
  }

  // ----- runs -----

  /** A run as `start_run` writes it. */
  predicate Initial(r: Run) {
    && r.status.Started? && r.rounds == [] && r.agents == map[] && r.failures == {} && r.synthesis.None?
    && r.reviewers == [] && r.traceability.None? && r.reviewBlockers == []
    && r.navReady == !r.navRequired && r.challengeRequired == r.policy.Auto?
  }

  datatype Step = Step(cmd: Command, env: Env)

  function Perform(r: Run, step: Step): Run {
    After(r, EffectOf(step.cmd, step.env, r))
  }

  function Exec(r: Run, steps: seq<Step>): Run {
    if steps == [] then r else Perform(Exec(r, steps[..|steps| - 1]), steps[|steps| - 1])
  }

  /** Commands that write a status without a guard. */
  predicate Unguarded(cmd: Command) {
    cmd.RenderPrompts? || cmd.RenderChallengePrompts?
  }
}

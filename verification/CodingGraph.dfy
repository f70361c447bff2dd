/** The native coding graph, its review gate, and the driver that continues it after an approval. */
module CodingGraph {
  import opened Options

  // ----- state -----

  datatype Action = Patch | NoChange | NeedsOperator

  datatype FailureCategory = ContractInvalid | VerificationUnsafe | OperatorNeeded | PatchInvalid | NoValidCandidate

  /** `verification_result`: absent, `{"skipped": True}`, or a tool result. */
  datatype Verification = NotRun | Skipped | Ran(ok: bool)

  datatype Verdict = Proceed | Revise | Block

  /** A reviewer's own decision: its verdict and whether it lists blockers. */
  datatype Decision = Decision(verdict: Verdict, blockers: bool)

  datatype Review = Review(verdict: Verdict, canProceed: bool)

  /** Run parameters. `repairLimit` is `max(0, coding_repair_attempts)`. */
  datatype Setup = Setup(coding: bool, planOnly: bool, nativeCoder: bool, fakeProvider: bool, repairLimit: nat)

  /** The parts of the run state that routes and the review read; a result is kept as its `ok` flag. */
  datatype State = State(
    planOnly: bool,
    workerResults: seq<bool>,
    action: Option<Action>,
    category: Option<FailureCategory>,
    repairError: bool,
    patchResults: seq<bool>,
    verification: Verification,
    repairAttempts: nat,
    review: Option<Review>,
    report: bool)

  const FRESH := State(false, [], None, None, false, [], NotRun, 0, None, false)

  datatype Node = Intake | Supervisor | GraphWorkers | CodingInspect | PatchPropose | PatchRepair
                | PatchApply | VerifyNode | Reviewer | Synthesizer | End

  // ----- oracle: what models, tools and operators answer to the i-th node -----

  datatype ProposalAnswer =
    | Proposed(action: Action)              // a validated patch or no_change proposal, or an operator question
    | Rejected(category: FailureCategory)   // no valid candidate
    | Existing(action: Action)              // an earlier `patch_proposal` artifact

  /** `patch_apply` and, when it succeeds, `git_diff`. */
  datatype ApplyAnswer = Applied(diffOk: bool) | NotApplied

  datatype World = World(
    aborts: nat -> bool,                    // exception, approval request or operator interrupt in the i-th node
    workers: nat -> seq<bool>,
    inspectFails: nat -> bool,
    proposal: nat -> ProposalAnswer,
    apply: nat -> ApplyAnswer,
    verified: nat -> bool,
    decision: nat -> Decision)

  // ----- nodes -----

  function Inspect(st: State, fails: bool): State {
    if fails then st.(category := Some(ContractInvalid), repairError := true) else st
  }

  function WithAction(st: State, action: Action): State {
    st.(action := Some(action), patchResults := if action.NoChange? then [true] else st.patchResults)
  }

  /** `_coding_patch_propose_node`, first proposal. */
  function Propose(st: State, a: ProposalAnswer): State {
    match a
    case Existing(action) => WithAction(st, action)
    case Rejected(category) =>
      st.(category := Some(if category.PatchInvalid? then NoValidCandidate else category), repairError := true)
    case Proposed(NeedsOperator) =>
      st.(action := Some(NeedsOperator), category := Some(OperatorNeeded), repairError := true)
    case Proposed(action) => WithAction(st, action)
  }

  /** The same node with `repair_verification`; it never reuses an artifact. */
  function Repair(st: State, a: ProposalAnswer): State {
    match a
    case Rejected(category) =>
      st.(category := Some(category), repairError := true, repairAttempts := st.repairAttempts + 1)
    case Proposed(NeedsOperator) =>
      st.(action := Some(NeedsOperator), category := Some(OperatorNeeded), repairError := true)
    case _ =>
      WithAction(st, a.action).(repairAttempts := st.repairAttempts + 1)
  }

  /** A `no_change` proposal carries no patches, and `native.patch_apply` refuses an empty list. */
  function Apply(st: State, a: ApplyAnswer): State {
    if st.action == Some(NoChange) then st.(patchResults := [false])
    else st.(patchResults := match a case NotApplied => [false] case Applied(diffOk) => [true, diffOk])
  }

  function Verify(st: State, ok: bool): State {
    st.(verification :=
      if Unapplied(st) then Skipped else Ran(ok))
  }

  /** The patch did not apply, and the action is not `no_change`. */
  predicate Unapplied(st: State) {
    st.action != Some(NoChange) && (st.patchResults == [] || !st.patchResults[0])
  }

  predicate AllOk(results: seq<bool>) {
    forall k :: 0 <= k < |results| ==> results[k]
  }

  /** `_precheck_review_findings` reports no blocker. */
  predicate PrecheckClean(st: State) {
    && AllOk(st.workerResults)
    && AllOk(st.patchResults)
    && (st.verification.NotRun? || st.verification == Ran(true))
    && !st.repairError
    && st.category.None?
  }

  function ReviewNode(st: State, d: Decision): State {
    var blocked := !PrecheckClean(st) || d.blockers;
    var verdict := if blocked then Block else d.verdict;
    st.(review := Some(Review(verdict, verdict.Proceed?)))
  }

  function RunNode(setup: Setup, w: World, i: nat, node: Node, st: State): State {
    match node
    case Intake => st
    case Supervisor => st.(planOnly := setup.planOnly)
    case GraphWorkers => st.(workerResults := w.workers(i))
    case CodingInspect => Inspect(st, w.inspectFails(i))
    case PatchPropose => Propose(st, w.proposal(i))
    case PatchRepair => Repair(st, w.proposal(i))
    case PatchApply => Apply(st, w.apply(i))
    case VerifyNode => Verify(st, w.verified(i))
    case Reviewer => ReviewNode(st, w.decision(i))
    case Synthesizer => st.(report := true)
    case End => st
  }

  // ----- routes -----

  predicate WantsRepair(setup: Setup, st: State) {
    && setup.coding && !setup.fakeProvider
    && st.verification == Ran(false)
    && st.repairAttempts < setup.repairLimit
  }

  function RouteAfterRepair(st: State): Node {
    if st.repairError then Reviewer
    else if st.action == Some(NoChange) then VerifyNode
    else PatchApply
  }

  function RouteAfterPropose(st: State): Node {
    if st.repairError || st.category == Some(OperatorNeeded) then Reviewer
    else if st.action == Some(NoChange) then VerifyNode
    else PatchApply
  }

  function Next(setup: Setup, node: Node, st: State): Node {
    match node
    case Intake => Supervisor
    case Supervisor =>
      if setup.planOnly || st.planOnly then Synthesizer
      else if setup.coding && setup.nativeCoder then CodingInspect
      else GraphWorkers
    case GraphWorkers => Reviewer
    case CodingInspect => if st.repairError || st.category.Some? then Reviewer else PatchPropose
    case PatchPropose => RouteAfterPropose(st)
    case PatchRepair => RouteAfterRepair(st)
    case PatchApply => VerifyNode
    case VerifyNode => if WantsRepair(setup, st) then PatchRepair else Reviewer
    case Reviewer => Synthesizer
    case Synthesizer => End
    case End => End
  }

  // ----- whole runs of the compiled graph -----

  /** One node execution: the state it left, or an abort that left none. */
  datatype Visit = Visit(node: Node, after: Option<State>)

  datatype Run = Run(visits: seq<Visit>, final: State, aborted: bool)

  function Height(node: Node): nat {
    match node
    case Intake => 10 case Supervisor => 9 case CodingInspect => 8 case PatchPropose => 7 case PatchApply => 6
    case VerifyNode => 5 case PatchRepair => 4 case GraphWorkers => 3 case Reviewer => 2 case Synthesizer => 1
      case End => 0
  }

  function RepairsLeft(setup: Setup, st: State): nat {
    if st.repairAttempts < setup.repairLimit then setup.repairLimit - st.repairAttempts else 0
  }

  /** The repair node is entered only while attempts are left. */
  predicate Enterable(setup: Setup, node: Node, st: State) {
    node.PatchRepair? ==> st.repairAttempts < setup.repairLimit
  }

  function Prepend(visits: seq<Visit>, r: Run): Run {
    r.(visits := visits + r.visits)
  }

  /** The graph entered at `node` with state `st`; `i` numbers node executions. The measure shows that every run ends:
      a repair that does not lead straight to the review uses up one attempt. */
  function RunGraph(setup: Setup, w: World, i: nat, node: Node, st: State): Run
    requires Enterable(setup, node, st)
    decreases RepairsLeft(setup, st), Height(node)
  {
    if node.End? then Run([], st, false)
    else if w.aborts(i) then Run([Visit(node, None)], st, true)
    else
      var st' := RunNode(setup, w, i, node, st);
      Prepend([Visit(node, Some(st'))], RunGraph(setup, w, i + 1, Next(setup, node, st'), st'))
  }

  function RunFresh(setup: Setup, w: World): Run {
    RunGraph(setup, w, 0, Intake, FRESH)
  }

  predicate Accepted(st: State) {
    st.review.Some? && st.review.value.canProceed
  }

  /** `execute_run`'s choice of the final status for a run that returned. */
  datatype Status = WaitingApproval | FailedVerification | Completed

  function FinalStatus(setup: Setup, st: State, pendingApprovals: nat): Status {
    if pendingApprovals > 0 then WaitingApproval
    else if setup.coding && !(st.planOnly || setup.planOnly) && !Accepted(st) then FailedVerification
    else Completed
  }

  // ----- acceptance -----

  /** The merged review lets a run proceed exactly when the precheck is clean and the reviewer proceeds without
      blockers. */
  lemma ReviewIff(st: State, d: Decision)
    ensures Accepted(ReviewNode(st, d)) <==> PrecheckClean(st) && !d.blockers && d.verdict.Proceed?
  {
  }

  /** The visit ran the verification commands and they succeeded. */
  predicate GoodVerify(v: Visit) {
    v.node.VerifyNode? && v.after.Some? && v.after.value.verification == Ran(true)
  }

  /** Some verification succeeded and no patch was applied and nothing verified after it. */
  ghost predicate VerifiedLast(visits: seq<Visit>) {
    exists v :: 0 <= v < |visits| && GoodVerify(visits[v])
      && forall k :: v < k < |visits| ==> !visits[k].node.PatchApply? && !visits[k].node.VerifyNode?
  }

  /** No visited state carries a repair error or failure category. */
  ghost predicate NeverFailed(visits: seq<Visit>) {
    forall k :: 0 <= k < |visits| && visits[k].after.Some? ==>
      !visits[k].after.value.repairError && visits[k].after.value.category.None?
  }

  /** Every patch application of the run succeeded. */
  ghost predicate AllApplied(visits: seq<Visit>) {
    forall k :: 0 <= k < |visits| && visits[k].node.PatchApply? && visits[k].after.Some? ==>
      visits[k].after.value.patchResults != [] && visits[k].after.value.patchResults[0]
  }

  predicate OnNativePath(node: Node) {
    node in {CodingInspect, PatchPropose, PatchRepair, PatchApply, VerifyNode, Reviewer, Synthesizer, End}
  }

  /** What the native path guarantees on entry of a node. */
  ghost predicate PathInv(node: Node, st: State) {
    && (node.Reviewer? ==> st.repairError || !st.verification.NotRun?)
    && (st.category.Some? ==> st.repairError)
    && (node.Synthesizer? || node.End? ==> Accepted(st) ==> PrecheckClean(st) && st.verification == Ran(true))
    && (OnNativePath(node) && !node.Synthesizer? && !node.End? ==> st.review.None?)
    && (node in {CodingInspect, PatchPropose} ==> st.verification.NotRun?)
    && (node.PatchApply? ==> st.action != Some(NoChange))
    && (node.PatchRepair? ==> st.verification == Ran(false))
  }

  lemma StepKeepsPathInv(setup: Setup, w: World, i: nat, node: Node, st: State)
    requires OnNativePath(node) && !node.End? && PathInv(node, st)
    ensures var st' := RunNode(setup, w, i, node, st);
            OnNativePath(Next(setup, node, st')) && PathInv(Next(setup, node, st'), st')
  {
  }

  ghost predicate Failed(st: State) {
    st.repairError || st.category.Some?
  }

  lemma NodeKeepsFailure(setup: Setup, w: World, i: nat, node: Node, st: State)
    ensures Failed(st) ==> Failed(RunNode(setup, w, i, node, st))
  {
  }

  /** Failure marks are never cleared. */
  lemma {:induction false} FailureSticks(setup: Setup, w: World, i: nat, node: Node, st: State)
    requires Enterable(setup, node, st)
    ensures var r := RunGraph(setup, w, i, node, st);
            (Failed(st) ==> Failed(r.final)) && (!Failed(r.final) ==> NeverFailed(r.visits))
    decreases RepairsLeft(setup, st), Height(node)
  {
    if !node.End? && !w.aborts(i) {
      NodeKeepsFailure(setup, w, i, node, st);
      var st' := RunNode(setup, w, i, node, st);
      FailureSticks(setup, w, i + 1, Next(setup, node, st'), st');
    }
  }

  lemma VerifiedLastPrepend(v: Visit, visits: seq<Visit>)
    ensures VerifiedLast(visits) ==> VerifiedLast([v] + visits)
    ensures GoodVerify(v) && (forall k :: 0 <= k < |visits| ==>
      !visits[k].node.PatchApply? && !visits[k].node.VerifyNode?)
            ==> VerifiedLast([v] + visits)
  {
    var all := [v] + visits;
    if VerifiedLast(visits) {
      var m :| 0 <= m < |visits| && GoodVerify(visits[m])
               && forall k :: m < k < |visits| ==> !visits[k].node.PatchApply? && !visits[k].node.VerifyNode?;
      assert GoodVerify(all[m + 1]);
      assert forall k :: m + 1 < k < |all| ==> all[k] == visits[k - 1];
    }
    if GoodVerify(v) && forall k :: 0 <= k < |visits| ==> !visits[k].node.PatchApply? && !visits[k].node.VerifyNode? {
      assert GoodVerify(all[0]);
    }
  }

  /** From the reviewer on nothing is applied or verified, and the verification result stands. */
  lemma {:induction false} ReviewTail(setup: Setup, w: World, i: nat, node: Node, st: State)
    requires node in {Reviewer, Synthesizer, End}
    ensures var r := RunGraph(setup, w, i, node, st);
      && r.final.verification == st.verification
      && forall k :: 0 <= k < |r.visits| ==> !r.visits[k].node.PatchApply? && !r.visits[k].node.VerifyNode?
    decreases Height(node)
  {
    if !node.End? && !w.aborts(i) {
      var st' := RunNode(setup, w, i, node, st);
      ReviewTail(setup, w, i + 1, Next(setup, node, st'), st');
    }
  }

  /** An accepted run entered before the review ends with a good verification. */
  lemma {:induction false} AcceptedIsVerified(setup: Setup, w: World, i: nat, node: Node, st: State)
    requires Enterable(setup, node, st) && OnNativePath(node) && PathInv(node, st)
    ensures var r := RunGraph(setup, w, i, node, st);
      Accepted(r.final) && !r.aborted ==>
        && PrecheckClean(r.final) && r.final.verification == Ran(true)
        && (node !in {Reviewer, Synthesizer, End} ==> VerifiedLast(r.visits))
    decreases RepairsLeft(setup, st), Height(node)
  {
    if !node.End? && !w.aborts(i) {
      var st' := RunNode(setup, w, i, node, st);
      var next := Next(setup, node, st');
      StepKeepsPathInv(setup, w, i, node, st);
      AcceptedIsVerified(setup, w, i + 1, next, st');
      var rest := RunGraph(setup, w, i + 1, next, st');
      VerifiedLastPrepend(Visit(node, Some(st')), rest.visits);
      if next.Reviewer? {
        ReviewTail(setup, w, i + 1, next, st');
        FailureSticks(setup, w, i + 1, next, st');
      }
    }
  }

  /** In the compiled graph a failed patch application leads straight to a blocked review. */
  lemma {:induction false} AcceptedAllApplied(setup: Setup, w: World, i: nat, node: Node, st: State)
    requires Enterable(setup, node, st) && OnNativePath(node) && PathInv(node, st)
    ensures var r := RunGraph(setup, w, i, node, st);
      && (!r.aborted && node.VerifyNode? && Unapplied(st) ==> !Accepted(r.final))
      && (!r.aborted && Accepted(r.final) ==> AllApplied(r.visits))
    decreases RepairsLeft(setup, st), Height(node)
  {
    if !node.End? && !w.aborts(i) {
      var st' := RunNode(setup, w, i, node, st);
      var next := Next(setup, node, st');
      StepKeepsPathInv(setup, w, i, node, st);
      AcceptedAllApplied(setup, w, i + 1, next, st');
      if next.Reviewer? {
        ReviewTail(setup, w, i + 1, next, st');
        AcceptedIsVerified(setup, w, i + 1, next, st');
      }
    }
  }

  /** The review gate: whatever models and tools answer, a fresh native coding run that may proceed ends on a
      workspace verified after its last applied patch; every patch application succeeded, the last patch results are
      all ok, and no repair error or failure category was ever set. */
  lemma AcceptedRunIsVerified(setup: Setup, w: World)
    requires setup.coding && setup.nativeCoder && !setup.planOnly
    ensures var r := RunFresh(setup, w);
      !r.aborted && Accepted(r.final) ==>
        VerifiedLast(r.visits) && NeverFailed(r.visits) && AllApplied(r.visits) && AllOk(r.final.patchResults)
  {
    var r1 := RunGraph(setup, w, 1, Supervisor, FRESH);
    if !w.aborts(0) {
      SupervisedRunIsVerified(setup, w);
      assert RunFresh(setup, w) == Prepend([Visit(Intake, Some(FRESH))], r1);
      FailureSticks(setup, w, 0, Intake, FRESH);
      VerifiedLastPrepend(Visit(Intake, Some(FRESH)), r1.visits);
    }
  }

  lemma SupervisedRunIsVerified(setup: Setup, w: World)
    requires setup.coding && setup.nativeCoder && !setup.planOnly
    ensures var r := RunGraph(setup, w, 1, Supervisor, FRESH);
      !r.aborted && Accepted(r.final) ==> VerifiedLast(r.visits) && AllApplied(r.visits) && PrecheckClean(r.final)
  {
    if !w.aborts(1) {
      var st := FRESH.(planOnly := false);
      var r2 := RunGraph(setup, w, 2, CodingInspect, st);
      assert RunGraph(setup, w, 1, Supervisor, FRESH) == Prepend([Visit(Supervisor, Some(st))], r2);
      AcceptedIsVerified(setup, w, 2, CodingInspect, st);
      AcceptedAllApplied(setup, w, 2, CodingInspect, st);
      VerifiedLastPrepend(Visit(Supervisor, Some(st)), r2.visits);
    }
  }

  /** ... and only such a run is reported as completed. */
  lemma CompletedCodingRunIsVerified(setup: Setup, w: World, pendingApprovals: nat)
    requires setup.coding && setup.nativeCoder
    ensures var r := RunFresh(setup, w);
      !r.aborted && FinalStatus(setup, r.final, pendingApprovals).Completed? ==>
        pendingApprovals == 0
          && (setup.planOnly || (VerifiedLast(r.visits) && NeverFailed(r.visits) && AllApplied(r.visits)))
  {
    if !setup.planOnly {
      AcceptedRunIsVerified(setup, w);
      PlanOnlyStays(setup, w, 0, Intake, FRESH);
    }
  }

  lemma {:induction false} PlanOnlyStays(setup: Setup, w: World, i: nat, node: Node, st: State)
    requires Enterable(setup, node, st) && !setup.planOnly && !st.planOnly
    ensures !RunGraph(setup, w, i, node, st).final.planOnly
    decreases RepairsLeft(setup, st), Height(node)
  {
    if !node.End? && !w.aborts(i) {
      var st' := RunNode(setup, w, i, node, st);
      PlanOnlyStays(setup, w, i + 1, Next(setup, node, st'), st');
    }
  }

  // ----- bounds on visits -----

  function CountVisits(visits: seq<Visit>, node: Node): nat {
    if visits == [] then 0 else (if visits[0].node == node then 1 else 0) + CountVisits(visits[1..], node)
  }

  lemma CountPrepend(v: Visit, visits: seq<Visit>, node: Node)
    ensures CountVisits([v] + visits, node) == (if v.node == node then 1 else 0) + CountVisits(visits, node)
  {
    assert ([v] + visits)[1..] == visits;
  }

  lemma CountShort()
    ensures forall v: Visit, node: Node {:trigger CountVisits([v], node)} ::
              CountVisits([v], node) == if v.node == node then 1 else 0
    ensures forall v: Visit, u: Visit, node: Node {:trigger CountVisits([v, u], node)} ::
              CountVisits([v, u], node) == (if v.node == node then 1 else 0) + (if u.node == node then 1 else 0)
  {
    forall v: Visit, node: Node ensures CountVisits([v], node) == if v.node == node then 1 else 0 {
      assert [v][1..] == [];
    }
    forall v: Visit, u: Visit, node: Node
      ensures CountVisits([v, u], node) == (if v.node == node then 1 else 0) + (if u.node == node then 1 else 0)
    {
      assert [v, u][1..] == [u] && [u][1..] == [];
    }
  }

  /** Below the verify and repair nodes none of the three is visited. */
  lemma {:induction false} LowVisits(setup: Setup, w: World, i: nat, node: Node, st: State)
    requires Height(node) <= 3
    ensures var visits := RunGraph(setup, w, i, node, st).visits;
            CountVisits(visits, PatchRepair) == CountVisits(visits, PatchApply) == CountVisits(visits, VerifyNode) == 0
    decreases Height(node)
  {
    CountShort();
    if !node.End? && !w.aborts(i) {
      var st' := RunNode(setup, w, i, node, st);
      var next := Next(setup, node, st');
      LowVisits(setup, w, i + 1, next, st');
      BoundedOther(Visit(node, Some(st')), RunGraph(setup, w, i + 1, next, st').visits, 0, 0, 0);
    }
  }

  ghost predicate Bounded(visits: seq<Visit>, repairs: nat, applications: nat, verifications: nat) {
    && CountVisits(visits, PatchRepair) <= repairs
    && CountVisits(visits, PatchApply) <= applications
    && CountVisits(visits, VerifyNode) <= verifications
  }

  function One(condition: bool): nat {
    if condition then 1 else 0
  }

  lemma BoundedOther(v: Visit, visits: seq<Visit>, repairs: nat, applications: nat, verifications: nat)
    requires Bounded(visits, repairs, applications, verifications)
    ensures Bounded([v] + visits, repairs + One(v.node.PatchRepair?), applications + One(v.node.PatchApply?),
                    verifications + One(v.node.VerifyNode?))
  {
    CountPrepend(v, visits, PatchRepair);
    CountPrepend(v, visits, PatchApply);
    CountPrepend(v, visits, VerifyNode);
  }

  /** Visits paid for by the attempts left and the height of the node entered. */
  ghost predicate Within(visits: seq<Visit>, left: nat, node: Node) {
    Bounded(visits, left, left + One(Height(node) >= 6), left + One(Height(node) >= 5))
  }

  /** What executing `node` and going on at `next` costs. */
  ghost predicate Affordable(node: Node, left: nat, next: Node, left': nat) {
    && left' + One(node.PatchRepair?) <= left
    && left' + One(Height(next) >= 6) + One(node.PatchApply?) <= left + One(Height(node) >= 6)
    && left' + One(Height(next) >= 5) + One(node.VerifyNode?) <= left + One(Height(node) >= 5)
  }

  lemma StepAffordable(setup: Setup, w: World, i: nat, node: Node, st: State)
    requires Enterable(setup, node, st) && !node.End?
    ensures var st' := RunNode(setup, w, i, node, st); var next := Next(setup, node, st');
            Height(next) > 3 ==> Affordable(node, RepairsLeft(setup, st), next, RepairsLeft(setup, st'))
    ensures node.PatchRepair? ==> RepairsLeft(setup, st) > 0
  {
  }

  lemma WithinPrepend(v: Visit, rest: seq<Visit>, left: nat, next: Node, left': nat)
    requires (Within(rest, left', next) && Affordable(v.node, left, next, left'))
      || (Bounded(rest, 0, 0, 0) && (v.node.PatchRepair? ==> left > 0))
    ensures Within([v] + rest, left, v.node)
  {
    CountPrepend(v, rest, PatchRepair);
    CountPrepend(v, rest, PatchApply);
    CountPrepend(v, rest, VerifyNode);
  }

  lemma StoppedWithin(setup: Setup, w: World, i: nat, node: Node, st: State)
    requires Enterable(setup, node, st) && (node.End? || w.aborts(i))
    ensures Within(RunGraph(setup, w, i, node, st).visits, RepairsLeft(setup, st), node)
  {
    if !node.End? {
      WithinPrepend(Visit(node, None), [], RepairsLeft(setup, st), End, 0);
    }
  }

  /** A run enters repair at most as often as attempts are left, and apply and verify once more each. */
  lemma {:induction false} VisitsBounded(setup: Setup, w: World, i: nat, node: Node, st: State)
    requires Enterable(setup, node, st)
    ensures Within(RunGraph(setup, w, i, node, st).visits, RepairsLeft(setup, st), node)
    decreases RepairsLeft(setup, st), Height(node)
  {
    if node.End? || w.aborts(i) {
      StoppedWithin(setup, w, i, node, st);
    } else {
      var st' := RunNode(setup, w, i, node, st);
      var next := Next(setup, node, st');
      var rest := RunGraph(setup, w, i + 1, next, st').visits;
      StepAffordable(setup, w, i, node, st);
      if Height(next) <= 3 {
        LowVisits(setup, w, i + 1, next, st');
      } else {
        VisitsBounded(setup, w, i + 1, next, st');
      }
      WithinPrepend(Visit(node, Some(st')), rest, RepairsLeft(setup, st), next, RepairsLeft(setup, st'));
    }
  }

  /** A run that is not aborted synthesises its report exactly once. */
  lemma {:induction false} SynthesisOnce(setup: Setup, w: World, i: nat, node: Node, st: State)
    requires Enterable(setup, node, st)
    ensures var r := RunGraph(setup, w, i, node, st);
            CountVisits(r.visits, Synthesizer) <= One(!node.End?)
              && (!r.aborted ==> CountVisits(r.visits, Synthesizer) == One(!node.End?))
    decreases RepairsLeft(setup, st), Height(node)
  {
    CountShort();
    if !node.End? && !w.aborts(i) {
      var st' := RunNode(setup, w, i, node, st);
      SynthesisOnce(setup, w, i + 1, Next(setup, node, st'), st');
      CountPrepend(Visit(node, Some(st')), RunGraph(setup, w, i + 1, Next(setup, node, st'), st').visits, Synthesizer);
    }
  }

  lemma FreshRunBounded(setup: Setup, w: World)
    ensures var r := RunFresh(setup, w);
      && CountVisits(r.visits, PatchRepair) <= setup.repairLimit
      && CountVisits(r.visits, PatchApply) <= setup.repairLimit + 1
      && CountVisits(r.visits, VerifyNode) <= setup.repairLimit + 1
      && (!r.aborted ==> CountVisits(r.visits, Synthesizer) == 1)
  {
    VisitsBounded(setup, w, 0, Intake, FRESH);
    SynthesisOnce(setup, w, 0, Intake, FRESH);
  }

  // ----- the driver that continues after a patch approval -----

  datatype Artifact = Artifact(action: Action, fromRepair: bool)

  /** State rebuilt from the latest proposal artifact. */
  function Hydrate(st: State, a: Artifact): State {
    st.(workerResults := [], action := Some(a.action), repairAttempts := if a.fromRepair then 1 else st.repairAttempts)
  }

  function DriveReview(setup: Setup, w: World, i: nat, st: State): Run {
    if w.aborts(i) then Run([Visit(Reviewer, None)], st, true)
    else
      var st1 := RunNode(setup, w, i, Reviewer, st);
      if w.aborts(i + 1) then Run([Visit(Reviewer, Some(st1)), Visit(Synthesizer, None)], st1, true)
      else
        var st2 := RunNode(setup, w, i + 1, Synthesizer, st1);
        Run([Visit(Reviewer, Some(st1)), Visit(Synthesizer, Some(st2))], st2, false)
  }

  function DriveApply(setup: Setup, w: World, i: nat, st: State): Run
    decreases RepairsLeft(setup, st), 1
  {
    if w.aborts(i) then Run([Visit(PatchApply, None)], st, true)
    else
      var st1 := RunNode(setup, w, i, PatchApply, st);
      if w.aborts(i + 1) then Run([Visit(PatchApply, Some(st1)), Visit(VerifyNode, None)], st1, true)
      else
        var st2 := RunNode(setup, w, i + 1, VerifyNode, st1);
        Prepend([Visit(PatchApply, Some(st1)), Visit(VerifyNode, Some(st2))], DriveLoop(setup, w, i + 2, st2))
  }

  function DriveLoop(setup: Setup, w: World, i: nat, st: State): Run
    decreases RepairsLeft(setup, st), 0
  {
    if !WantsRepair(setup, st) then DriveReview(setup, w, i, st)
    else if w.aborts(i) then Run([Visit(PatchRepair, None)], st, true)
    else
      var st' := RunNode(setup, w, i, PatchRepair, st);
      Prepend([Visit(PatchRepair, Some(st'))],
              if RouteAfterRepair(st').Reviewer? then DriveReview(setup, w, i + 1, st')
                else DriveApply(setup, w, i + 1, st'))
  }

  /** One pass of `patch_apply` and `verify` in the driver. */
  method ApplyAndVerify(setup: Setup, w: World, i: nat, state: State, visits: seq<Visit>)
    returns (st: State, visits': seq<Visit>, aborted: bool)
    ensures aborted ==> Run(visits', st, true) == Prepend(visits, DriveApply(setup, w, i, state))
    ensures !aborted ==>
      Prepend(visits', DriveLoop(setup, w, i + 2, st)) == Prepend(visits, DriveApply(setup, w, i, state))
    ensures !aborted ==> RepairsLeft(setup, st) == RepairsLeft(setup, state)
  {
    st := state;
    if w.aborts(i) {
      return st, visits + [Visit(PatchApply, None)], true;
    }
    st := RunNode(setup, w, i, PatchApply, st);
    visits' := visits + [Visit(PatchApply, Some(st))];
    ghost var applied := Visit(PatchApply, Some(st));
    if w.aborts(i + 1) {
      assert visits' + [Visit(VerifyNode, None)] == visits + [applied, Visit(VerifyNode, None)];
      return st, visits' + [Visit(VerifyNode, None)], true;
    }
    st := RunNode(setup, w, i + 1, VerifyNode, st);
    visits' := visits' + [Visit(VerifyNode, Some(st))];
    ghost var rest := DriveLoop(setup, w, i + 2, st).visits;
    assert visits' + rest == visits + ([applied, Visit(VerifyNode, Some(st))] + rest);
    aborted := false;
  }

  method RepairOnce(setup: Setup, w: World, i: nat, state: State, visits: seq<Visit>)
    returns (st: State, visits': seq<Visit>, aborted: bool)
    requires WantsRepair(setup, state)
    ensures aborted ==> Run(visits', st, true) == Prepend(visits, DriveLoop(setup, w, i, state))
    ensures !aborted && RouteAfterRepair(st).Reviewer? ==>
              Prepend(visits', DriveReview(setup, w, i + 1, st)) == Prepend(visits, DriveLoop(setup, w, i, state))
    ensures !aborted && !RouteAfterRepair(st).Reviewer? ==>
              && Prepend(visits', DriveApply(setup, w, i + 1, st)) == Prepend(visits, DriveLoop(setup, w, i, state))
              && RepairsLeft(setup, st) < RepairsLeft(setup, state)
  {
    if w.aborts(i) {
      return state, visits + [Visit(PatchRepair, None)], true;
    }
    st := RunNode(setup, w, i, PatchRepair, state);
    visits', aborted := visits + [Visit(PatchRepair, Some(st))], false;
    ghost var rest := if RouteAfterRepair(st).Reviewer? then DriveReview(setup, w, i + 1, st)
        else DriveApply(setup, w, i + 1, st);
    assert visits' + rest.visits == visits + ([Visit(PatchRepair, Some(st))] + rest.visits);
  }

  method ReviewAndSynthesize(setup: Setup, w: World, i: nat, state: State, visits: seq<Visit>) returns (r: Run)
    ensures r == Prepend(visits, DriveReview(setup, w, i, state))
  {
    if w.aborts(i) {
      return Run(visits + [Visit(Reviewer, None)], state, true);
    }
    var st := RunNode(setup, w, i, Reviewer, state);
    var visits' := visits + [Visit(Reviewer, Some(st))];
    ghost var reviewed := Visit(Reviewer, Some(st));
    if w.aborts(i + 1) {
      assert visits' + [Visit(Synthesizer, None)] == visits + [reviewed, Visit(Synthesizer, None)];
      return Run(visits' + [Visit(Synthesizer, None)], st, true);
    }
    st := RunNode(setup, w, i + 1, Synthesizer, st);
    assert visits' + [Visit(Synthesizer, Some(st))] == visits + [reviewed, Visit(Synthesizer, Some(st))];
    r := Run(visits' + [Visit(Synthesizer, Some(st))], st, false);
  }

  method ResumeAfterPatchApproval(setup: Setup, w: World, state: State, artifact: Option<Artifact>)
    returns (r: Option<Run>)
    ensures artifact.None? ==> r.None?
    ensures artifact.Some? ==> r == Some(DriveApply(setup, w, 0, Hydrate(state, artifact.value)))
  {
    if artifact.None? {
      return None;
    }
    ghost var whole := DriveApply(setup, w, 0, Hydrate(state, artifact.value));
    var st, visits, aborted := ApplyAndVerify(setup, w, 0, Hydrate(state, artifact.value), []);
    assert Prepend([], whole) == whole;
    if aborted {
      return Some(Run(visits, st, true));
    }
    var i := 2;
    while WantsRepair(setup, st)
      invariant Prepend(visits, DriveLoop(setup, w, i, st)) == whole
      decreases RepairsLeft(setup, st)
    {
      st, visits, aborted := RepairOnce(setup, w, i, st, visits);
      if aborted {
        return Some(Run(visits, st, true));
      }
      i := i + 1;
      if RouteAfterRepair(st).Reviewer? {
        break;
      }
      st, visits, aborted := ApplyAndVerify(setup, w, i, st, visits);
      if aborted {
        return Some(Run(visits, st, true));
      }
      i := i + 2;
    }
    var run := ReviewAndSynthesize(setup, w, i, st, visits);
    r := Some(run);
  }

  /** A repair that decided `no_change`: the graph re-verifies, the driver applies again. */
  predicate RepairWithoutChange(v: Visit) {
    v.node.PatchRepair? && v.after.Some? && RouteAfterRepair(v.after.value).VerifyNode?
  }

  ghost predicate RepairsChange(visits: seq<Visit>) {
    forall k :: 0 <= k < |visits| ==> !RepairWithoutChange(visits[k])
  }

  lemma ReviewTailAgrees(setup: Setup, w: World, i: nat, st: State)
    ensures DriveReview(setup, w, i, st) == RunGraph(setup, w, i, Reviewer, st)
    ensures RepairsChange(RunGraph(setup, w, i, Reviewer, st).visits)
  {
    if !w.aborts(i) {
      var st1 := RunNode(setup, w, i, Reviewer, st);
      var rest := RunGraph(setup, w, i + 1, Synthesizer, st1);
      if !w.aborts(i + 1) {
        var st2 := RunNode(setup, w, i + 1, Synthesizer, st1);
        assert RunGraph(setup, w, i + 2, End, st2) == Run([], st2, false);
      }
    }
  }

  lemma RepairsChangePrepend(v: Visit, visits: seq<Visit>)
    ensures RepairsChange([v] + visits) <==> !RepairWithoutChange(v) && RepairsChange(visits)
  {
    var all := [v] + visits;
    if RepairsChange(all) {
      assert !RepairWithoutChange(all[0]);
      forall k | 0 <= k < |visits| ensures !RepairWithoutChange(visits[k]) {
        assert !RepairWithoutChange(all[k + 1]);
      }
    }
  }

  /** After its verification the driver agrees with the graph, up to the first repair without a change. */
  lemma {:induction false} DriveLoopAgrees(setup: Setup, w: World, i: nat, st: State)
    ensures var graph := RunGraph(setup, w, i, if WantsRepair(setup, st) then PatchRepair else Reviewer, st);
            DriveLoop(setup, w, i, st) == graph <==> RepairsChange(graph.visits)
    decreases RepairsLeft(setup, st), 0
  {
    if !WantsRepair(setup, st) {
      ReviewTailAgrees(setup, w, i, st);
    } else if !w.aborts(i) {
      var st' := RunNode(setup, w, i, PatchRepair, st);
      var v, next := Visit(PatchRepair, Some(st')), RouteAfterRepair(st');
      var rest := RunGraph(setup, w, i + 1, next, st');
      assert RunGraph(setup, w, i, PatchRepair, st) == Prepend([v], rest);
      RepairsChangePrepend(v, rest.visits);
      if next.Reviewer? {
        ReviewTailAgrees(setup, w, i + 1, st');
      } else {
        var driven := DriveApply(setup, w, i + 1, st');
        assert DriveLoop(setup, w, i, st) == Prepend([v], driven);
        if next.PatchApply? {
          DriveApplyAgrees(setup, w, i + 1, st');
          PrependInjective(v, driven, rest);
        } else {
          assert driven.visits[0].node == PatchApply && rest.visits[0].node == VerifyNode;
          PrependInjective(v, driven, rest);
        }
      }
    }
  }

  lemma PrependInjective(v: Visit, a: Run, b: Run)
    ensures Prepend([v], a) == Prepend([v], b) <==> a == b
  {
    if Prepend([v], a) == Prepend([v], b) {
      assert a.visits == ([v] + a.visits)[1..] == ([v] + b.visits)[1..] == b.visits;
    }
  }

  /** The driver from its verification on. */
  ghost function DriveVerify(setup: Setup, w: World, i: nat, st: State): Run {
    if w.aborts(i) then Run([Visit(VerifyNode, None)], st, true)
    else
      var st' := RunNode(setup, w, i, VerifyNode, st);
      Prepend([Visit(VerifyNode, Some(st'))], DriveLoop(setup, w, i + 1, st'))
  }

  lemma DriveApplyVerifies(setup: Setup, w: World, i: nat, st: State)
    requires !w.aborts(i)
    ensures var st1 := RunNode(setup, w, i, PatchApply, st);
            DriveApply(setup, w, i, st) == Prepend([Visit(PatchApply, Some(st1))], DriveVerify(setup, w, i + 1, st1))
  {
    var st1 := RunNode(setup, w, i, PatchApply, st);
    var v1 := Visit(PatchApply, Some(st1));
    if w.aborts(i + 1) {
      assert [v1] + [Visit(VerifyNode, None)] == [v1, Visit(VerifyNode, None)];
    } else {
      var st2 := RunNode(setup, w, i + 1, VerifyNode, st1);
      var v2, rest := Visit(VerifyNode, Some(st2)), DriveLoop(setup, w, i + 2, st2).visits;
      assert [v1] + ([v2] + rest) == [v1, v2] + rest;
    }
  }

  lemma {:induction false} DriveVerifyAgrees(setup: Setup, w: World, i: nat, st: State)
    ensures var graph := RunGraph(setup, w, i, VerifyNode, st);
            DriveVerify(setup, w, i, st) == graph <==> RepairsChange(graph.visits)
    decreases RepairsLeft(setup, st), 1
  {
    if !w.aborts(i) {
      var st' := RunNode(setup, w, i, VerifyNode, st);
      var v := Visit(VerifyNode, Some(st'));
      var rest := RunGraph(setup, w, i + 1, if WantsRepair(setup, st') then PatchRepair else Reviewer, st');
      assert RunGraph(setup, w, i, VerifyNode, st) == Prepend([v], rest);
      RepairsChangePrepend(v, rest.visits);
      DriveLoopAgrees(setup, w, i + 1, st');
      PrependInjective(v, DriveLoop(setup, w, i + 1, st'), rest);
    }
  }

  /** The resume driver is the compiled graph entered at `patch_apply`: same nodes in the same states, exactly when no
      repair of the run decided `no_change`. */
  lemma {:induction false} DriveApplyAgrees(setup: Setup, w: World, i: nat, st: State)
    ensures var graph := RunGraph(setup, w, i, PatchApply, st);
            DriveApply(setup, w, i, st) == graph <==> RepairsChange(graph.visits)
    decreases RepairsLeft(setup, st), 2
  {
    if !w.aborts(i) {
      var st1 := RunNode(setup, w, i, PatchApply, st);
      var v1 := Visit(PatchApply, Some(st1));
      var g1 := RunGraph(setup, w, i + 1, VerifyNode, st1);
      var d1 := DriveVerify(setup, w, i + 1, st1);
      assert RunGraph(setup, w, i, PatchApply, st) == Prepend([v1], g1);
      DriveApplyVerifies(setup, w, i, st);
      RepairsChangePrepend(v1, g1.visits);
      DriveVerifyAgrees(setup, w, i + 1, st1);
      PrependInjective(v1, d1, g1);
    }
  }

  /** The review gate holds for the driver too, even through repairs without a change. */
  lemma {:induction false} DriverAcceptedIsVerified(setup: Setup, w: World, i: nat, st: State)
    ensures var r := DriveApply(setup, w, i, st);
      !r.aborted && Accepted(r.final) ==> PrecheckClean(r.final) && VerifiedLast(r.visits)
    decreases RepairsLeft(setup, st), 1
  {
    if !w.aborts(i) && !w.aborts(i + 1) {
      var st1 := RunNode(setup, w, i, PatchApply, st);
      var st2 := RunNode(setup, w, i + 1, VerifyNode, st1);
      var v1, v2, rest := Visit(PatchApply, Some(st1)), Visit(VerifyNode, Some(st2)), DriveLoop(setup, w, i + 2, st2);
      DriverLoopAccepted(setup, w, i + 2, st2);
      assert st2.verification == Ran(true) ==> GoodVerify(v2);
      VerifiedLastPrepend(v2, rest.visits);
      VerifiedLastPrepend(v1, [v2] + rest.visits);
      assert [v1] + ([v2] + rest.visits) == [v1, v2] + rest.visits;
    }
  }

  lemma {:induction false} DriverLoopAccepted(setup: Setup, w: World, i: nat, st: State)
    requires !st.verification.NotRun?
    ensures var r := DriveLoop(setup, w, i, st);
      !r.aborted && Accepted(r.final) ==>
        && PrecheckClean(r.final)
        && (VerifiedLast(r.visits)
            || (st.verification == Ran(true) && forall k :: 0 <= k < |r.visits| ==>
               !r.visits[k].node.PatchApply? && !r.visits[k].node.VerifyNode?))
    decreases RepairsLeft(setup, st), 0
  {
    if WantsRepair(setup, st) && !w.aborts(i) {
      var st' := RunNode(setup, w, i, PatchRepair, st);
      if !RouteAfterRepair(st').Reviewer? {
        DriverAcceptedIsVerified(setup, w, i + 1, st');
        VerifiedLastPrepend(Visit(PatchRepair, Some(st')), DriveApply(setup, w, i + 1, st').visits);
      }
    }
  }

  lemma BoundedApplyVerify(v: Visit, u: Visit, visits: seq<Visit>, repairs: nat, applications: nat)
    requires Bounded(visits, repairs, applications, applications) && v.node.PatchApply? && u.node.VerifyNode?
    ensures Bounded([v, u] + visits, repairs, applications + 1, applications + 1)
  {
    assert [v, u] + visits == [v] + ([u] + visits);
    BoundedOther(u, visits, repairs, applications, applications);
    BoundedOther(v, [u] + visits, repairs, applications, applications + 1);
  }

  lemma ReviewVisits(setup: Setup, w: World, i: nat, st: State)
    ensures Bounded(DriveReview(setup, w, i, st).visits, 0, 0, 0)
  {
    CountShort();
  }

  /** The driver enters repair at most as often as attempts are left, and apply and verify once more each. */
  lemma {:induction false} DriverBounded(setup: Setup, w: World, i: nat, st: State)
    ensures var left := RepairsLeft(setup, st); Bounded(DriveApply(setup, w, i, st).visits, left, left + 1, left + 1)
    decreases RepairsLeft(setup, st), 1
  {
    CountShort();
    if !w.aborts(i) && !w.aborts(i + 1) {
      var st1 := RunNode(setup, w, i, PatchApply, st);
      var st2 := RunNode(setup, w, i + 1, VerifyNode, st1);
      DriverLoopBounded(setup, w, i + 2, st2);
      BoundedApplyVerify(Visit(PatchApply, Some(st1)), Visit(VerifyNode, Some(st2)),
                         DriveLoop(setup, w, i + 2, st2).visits,
                         RepairsLeft(setup, st), RepairsLeft(setup, st));
    }
  }

  lemma {:induction false} DriverLoopBounded(setup: Setup, w: World, i: nat, st: State)
    ensures var left := RepairsLeft(setup, st); Bounded(DriveLoop(setup, w, i, st).visits, left, left, left)
    decreases RepairsLeft(setup, st), 0
  {
    if !WantsRepair(setup, st) {
      ReviewVisits(setup, w, i, st);
    } else if w.aborts(i) {
      CountShort();
    } else {
      var st' := RunNode(setup, w, i, PatchRepair, st);
      var v, left := Visit(PatchRepair, Some(st')), RepairsLeft(setup, st');
      if RouteAfterRepair(st').Reviewer? {
        ReviewVisits(setup, w, i + 1, st');
        BoundedOther(v, DriveReview(setup, w, i + 1, st').visits, 0, 0, 0);
      } else {
        DriverBounded(setup, w, i + 1, st');
        BoundedOther(v, DriveApply(setup, w, i + 1, st').visits, left, left + 1, left + 1);
      }
    }
  }

  lemma AllAppliedPrepend(v: Visit, visits: seq<Visit>)
    ensures AllApplied([v] + visits) <==> AllApplied([v]) && AllApplied(visits)
  {
    var all := [v] + visits;
    assert all[0] == v;
    assert forall k :: 0 <= k < |visits| ==> all[k + 1] == visits[k];
  }

  lemma AllAppliedOne(v: Visit)
    requires v.after.Some?
    ensures AllApplied([v]) <==>
      (v.node.PatchApply? ==> v.after.value.patchResults != [] && v.after.value.patchResults[0])
  {
    assert [v][0] == v;
  }

  /** A failed application of a `patch` proposal is skipped by the verification and blocked by the review. */
  lemma FailedApplyIsRefused(setup: Setup, w: World, i: nat, st: State)
    requires st.action != Some(NoChange) && !RunNode(setup, w, i, PatchApply, st).patchResults[0]
    ensures var st2 := RunNode(setup, w, i + 1, VerifyNode, RunNode(setup, w, i, PatchApply, st));
      !WantsRepair(setup, st2) && !PrecheckClean(st2)
  {
  }

  lemma ReviewAppliesNothing(setup: Setup, w: World, i: nat, st: State)
    ensures var r := DriveReview(setup, w, i, st);
      && AllApplied(r.visits) && RepairsChange(r.visits)
      && (!r.aborted && Accepted(r.final) ==> PrecheckClean(st))
  {
  }

  /** Where "every patch application of an accepted run succeeded" holds for the driver: exactly in the runs that
      start with patches and in which no repair decided `no_change`. */
  lemma {:induction false} DriverAllAppliedIff(setup: Setup, w: World, i: nat, st: State)
    ensures var r := DriveApply(setup, w, i, st);
      !r.aborted && Accepted(r.final) ==>
        (AllApplied(r.visits) <==> st.action != Some(NoChange) && RepairsChange(r.visits))
    decreases RepairsLeft(setup, st), 1
  {
    if !w.aborts(i) && !w.aborts(i + 1) {
      var st1 := RunNode(setup, w, i, PatchApply, st);
      var st2 := RunNode(setup, w, i + 1, VerifyNode, st1);
      var v1, v2, rest := Visit(PatchApply, Some(st1)), Visit(VerifyNode, Some(st2)), DriveLoop(setup, w, i + 2, st2);
      assert [v1, v2] + rest.visits == [v1] + ([v2] + rest.visits);
      AllAppliedPrepend(v1, [v2] + rest.visits);
      AllAppliedPrepend(v2, rest.visits);
      AllAppliedOne(v1);
      AllAppliedOne(v2);
      RepairsChangePrepend(v1, [v2] + rest.visits);
      RepairsChangePrepend(v2, rest.visits);
      if st.action != Some(NoChange) && !st1.patchResults[0] {
        FailedApplyIsRefused(setup, w, i, st);
        ReviewAppliesNothing(setup, w, i + 2, st2);
      } else {
        DriverLoopAllAppliedIff(setup, w, i + 2, st2);
      }
    }
  }

  lemma {:induction false} DriverLoopAllAppliedIff(setup: Setup, w: World, i: nat, st: State)
    ensures var r := DriveLoop(setup, w, i, st);
      !r.aborted && Accepted(r.final) ==> (AllApplied(r.visits) <==> RepairsChange(r.visits))
    decreases RepairsLeft(setup, st), 0
  {
    if !WantsRepair(setup, st) {
      ReviewAppliesNothing(setup, w, i, st);
    } else if !w.aborts(i) {
      var st' := RunNode(setup, w, i, PatchRepair, st);
      var v := Visit(PatchRepair, Some(st'));
      if RouteAfterRepair(st').Reviewer? {
        var rest := DriveReview(setup, w, i + 1, st');
        ReviewAppliesNothing(setup, w, i + 1, st');
        AllAppliedOne(v);
        AllAppliedPrepend(v, rest.visits);
        RepairsChangePrepend(v, rest.visits);
      } else {
        var rest := DriveApply(setup, w, i + 1, st');
        DriverAllAppliedIff(setup, w, i + 1, st');
        AllAppliedOne(v);
        AllAppliedPrepend(v, rest.visits);
        RepairsChangePrepend(v, rest.visits);
      }
    }
  }

  /** The failing side is inhabited: after a `no_change` repair the driver applies an empty proposal; when the
      verification then fails too, a second repair can still pass. */
  lemma DriverForgetsFailedApply(setup: Setup, w: World)
    requires setup == Setup(true, false, true, false, 2)
    requires forall i :: !w.aborts(i) && w.decision(i) == Decision(Proceed, false)
    requires w.apply(0) == Applied(true) && !w.verified(1) && w.proposal(2) == Proposed(NoChange)
    requires !w.verified(4) && w.proposal(5) == Proposed(Patch)
    requires w.apply(6) == Applied(true) && w.verified(7)
    ensures var r := DriveApply(setup, w, 0, FRESH.(action := Some(Patch)));
            !r.aborted && Accepted(r.final) && !AllApplied(r.visits)
  {
    var s0 := FRESH.(action := Some(Patch));
    var s1 := RunNode(setup, w, 0, PatchApply, s0);
    var s2 := RunNode(setup, w, 1, VerifyNode, s1);
    var s3 := RunNode(setup, w, 2, PatchRepair, s2);
    var s4 := RunNode(setup, w, 3, PatchApply, s3);
    var s5 := RunNode(setup, w, 4, VerifyNode, s4);
    var s6 := RunNode(setup, w, 5, PatchRepair, s5);
    var s7 := RunNode(setup, w, 6, PatchApply, s6);
    var s8 := RunNode(setup, w, 7, VerifyNode, s7);
    var d8 := DriveLoop(setup, w, 8, s8);
    assert d8 == DriveReview(setup, w, 8, s8);
    var d6 := DriveApply(setup, w, 6, s6);
    assert d6 == Prepend([Visit(PatchApply, Some(s7)), Visit(VerifyNode, Some(s8))], d8);
    var d5 := DriveLoop(setup, w, 5, s5);
    assert d5 == Prepend([Visit(PatchRepair, Some(s6))], d6);
    var d3 := DriveApply(setup, w, 3, s3);
    assert d3 == Prepend([Visit(PatchApply, Some(s4)), Visit(VerifyNode, Some(s5))], d5);
    var d2 := DriveLoop(setup, w, 2, s2);
    assert d2 == Prepend([Visit(PatchRepair, Some(s3))], d3);
    var d0 := DriveApply(setup, w, 0, s0);
    assert d0 == Prepend([Visit(PatchApply, Some(s1)), Visit(VerifyNode, Some(s2))], d2);
    assert d0.visits[3] == Visit(PatchApply, Some(s4));
  }
}

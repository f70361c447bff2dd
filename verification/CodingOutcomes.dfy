/** Which path a coding run takes, what its oracle answered when it was accepted, and how it is reported. */
module CodingOutcomes {
  import opened CodingGraph
  import opened Options

  // ----- a run is the chain of its node executions -----

  /** The state before the k-th visit. */
  function StateBefore(visits: seq<Visit>, st: State, k: nat): State
    requires k <= |visits| && forall j :: 0 <= j < k ==> visits[j].after.Some?
  {
    if k == 0 then st else visits[k - 1].after.value
  }

  /** The visits execute one node after another, each on the state the one before left, and follow the routes. */
  ghost predicate Chain(setup: Setup, w: World, i: nat, node: Node, st: State, visits: seq<Visit>) {
    && (visits != [] ==> visits[0].node == node)
    && (forall k :: 0 <= k < |visits| - 1 ==> visits[k].after.Some?)
    && (forall k :: 0 <= k < |visits| && visits[k].after.Some? ==>
          visits[k].after.value == RunNode(setup, w, i + k, visits[k].node, StateBefore(visits, st, k)))
    && (forall k :: 0 <= k < |visits| - 1 ==> visits[k + 1].node == Next(setup, visits[k].node, visits[k].after.value))
  }

  lemma ChainPrepend(setup: Setup, w: World, i: nat, node: Node, st: State, st': State, visits: seq<Visit>)
    requires st' == RunNode(setup, w, i, node, st)
    requires Chain(setup, w, i + 1, Next(setup, node, st'), st', visits)
    ensures Chain(setup, w, i, node, st, [Visit(node, Some(st'))] + visits)
  {
    var all := [Visit(node, Some(st'))] + visits;
    forall k | 0 < k < |all| && all[k].after.Some?
      ensures all[k].after.value == RunNode(setup, w, i + k, all[k].node, StateBefore(all, st, k))
    {
      assert all[k] == visits[k - 1];
      assert StateBefore(all, st, k) == StateBefore(visits, st', k - 1);
    }
    forall k | 0 <= k < |all| - 1 ensures all[k + 1].node == Next(setup, all[k].node, all[k].after.value) {
      assert all[k + 1] == visits[k];
      assert k > 0 ==> all[k] == visits[k - 1];
    }
  }

  lemma {:induction false} RunIsChain(setup: Setup, w: World, i: nat, node: Node, st: State)
    requires Enterable(setup, node, st)
    ensures var r := RunGraph(setup, w, i, node, st);
      && Chain(setup, w, i, node, st, r.visits)
      && (!node.End? ==> r.visits != [])
    decreases RepairsLeft(setup, st), Height(node)
  {
    if !node.End? && !w.aborts(i) {
      var st' := RunNode(setup, w, i, node, st);
      var next := Next(setup, node, st');
      RunIsChain(setup, w, i + 1, next, st');
      ChainPrepend(setup, w, i, node, st, st', RunGraph(setup, w, i + 1, next, st').visits);
    }
  }

  // ----- the path a mode takes -----

  ghost predicate OnlyVisits(visits: seq<Visit>, nodes: set<Node>) {
    forall k :: 0 <= k < |visits| ==> visits[k].node in nodes
  }

  ghost predicate Visited(visits: seq<Visit>, node: Node) {
    exists k :: 0 <= k < |visits| && visits[k].node == node
  }

  /** Nodes from which the routes lead only to nodes of the set. */
  ghost predicate ClosedUnder(setup: Setup, nodes: set<Node>) {
    forall node, st :: node in nodes && node != Supervisor ==> Next(setup, node, st) in nodes
  }

  lemma {:induction false} StaysWithin(setup: Setup, w: World, i: nat, node: Node, st: State, nodes: set<Node>)
    requires Enterable(setup, node, st) && node in nodes && Supervisor !in nodes && ClosedUnder(setup, nodes)
    ensures OnlyVisits(RunGraph(setup, w, i, node, st).visits, nodes)
    decreases RepairsLeft(setup, st), Height(node)
  {
    if !node.End? && !w.aborts(i) {
      var st' := RunNode(setup, w, i, node, st);
      StaysWithin(setup, w, i + 1, Next(setup, node, st'), st', nodes);
    }
  }

  const REPORT: set<Node> := {Synthesizer, End}
  const WORKERS: set<Node> := {GraphWorkers, Reviewer, Synthesizer, End}
  const NATIVE: set<Node> :=
    {CodingInspect, PatchPropose, PatchRepair, PatchApply, VerifyNode, Reviewer, Synthesizer, End}

  /** The first node a run visits after the supervisor. */
  function FirstNode(setup: Setup): Node {
    if setup.planOnly then Synthesizer
    else if setup.coding && setup.nativeCoder then CodingInspect
    else GraphWorkers
  }

  /** All nodes it may visit from there. */
  function PathNodes(setup: Setup): set<Node> {
    if setup.planOnly then REPORT
    else if setup.coding && setup.nativeCoder then NATIVE
    else WORKERS
  }

  lemma PathClosed(setup: Setup)
    ensures FirstNode(setup) in PathNodes(setup) && !FirstNode(setup).PatchRepair?
    ensures Supervisor !in PathNodes(setup) && ClosedUnder(setup, PathNodes(setup))
  {
  }

  /** The head of a fresh run: intake, supervisor, then the mode's path. */
  lemma FreshHead(setup: Setup, w: World)
    requires !w.aborts(0) && !w.aborts(1)
    ensures var st := FRESH.(planOnly := setup.planOnly);
      RunFresh(setup, w) == Prepend([Visit(Intake, Some(FRESH))],
                                    Prepend([Visit(Supervisor, Some(st))], RunGraph(setup, w, 2, FirstNode(setup), st)))
  {
    var st := FRESH.(planOnly := setup.planOnly);
    assert RunGraph(setup, w, 1, Supervisor, FRESH)
        == Prepend([Visit(Supervisor, Some(st))], RunGraph(setup, w, 2, FirstNode(setup), st));
  }

  lemma FreshAborted(setup: Setup, w: World)
    requires w.aborts(0) || w.aborts(1)
    ensures var r := RunFresh(setup, w);
      r.aborted && |r.visits| <= 2 && OnlyVisits(r.visits, {Intake, Supervisor})
  {
    if !w.aborts(0) {
      var rest := RunGraph(setup, w, 1, Supervisor, FRESH);
      assert rest == Run([Visit(Supervisor, None)], FRESH, true);
      assert RunFresh(setup, w) == Prepend([Visit(Intake, Some(FRESH))], rest);
    }
  }

  /** Every behaviour: a run visits intake and supervisor, and from then on only nodes of its mode's path; the first of
      them is visited unless the run was aborted before. */
  lemma ModePath(setup: Setup, w: World)
    ensures var visits := RunFresh(setup, w).visits;
      && OnlyVisits(visits, {Intake, Supervisor} + PathNodes(setup))
      && (!RunFresh(setup, w).aborted ==> |visits| > 2 && visits[2].node == FirstNode(setup))
  {
    var first, nodes := FirstNode(setup), PathNodes(setup);
    PathClosed(setup);
    if !w.aborts(0) && !w.aborts(1) {
      var st := FRESH.(planOnly := setup.planOnly);
      FreshHead(setup, w);
      StaysWithin(setup, w, 2, first, st, nodes);
      RunIsChain(setup, w, 2, first, st);
    } else {
      FreshAborted(setup, w);
    }
  }

  /** A plan-only run leaves the workspace alone: it only plans and reports. */
  lemma PlanOnlyOnlyReports(setup: Setup, w: World)
    requires setup.planOnly
    ensures OnlyVisits(RunFresh(setup, w).visits, {Intake, Supervisor, Synthesizer})
  {
    ModePath(setup, w);
    RunIsChain(setup, w, 0, Intake, FRESH);
    NeverVisitsEnd(setup, w, 0, Intake, FRESH);
  }

  lemma {:induction false} NeverVisitsEnd(setup: Setup, w: World, i: nat, node: Node, st: State)
    requires Enterable(setup, node, st)
    ensures !Visited(RunGraph(setup, w, i, node, st).visits, End)
    decreases RepairsLeft(setup, st), Height(node)
  {
    if !node.End? && !w.aborts(i) {
      var st' := RunNode(setup, w, i, node, st);
      NeverVisitsEnd(setup, w, i + 1, Next(setup, node, st'), st');
    }
  }

  /** A run that is not plan-only and not aborted inspects exactly when it is a coding run with the native coder, and
      runs the worker roles exactly otherwise. */
  lemma NativeOrWorkers(setup: Setup, w: World)
    requires !setup.planOnly && !RunFresh(setup, w).aborted
    ensures Visited(RunFresh(setup, w).visits, CodingInspect) <==> setup.coding && setup.nativeCoder
    ensures Visited(RunFresh(setup, w).visits, GraphWorkers) <==> !(setup.coding && setup.nativeCoder)
  {
    ModePath(setup, w);
  }

  lemma {:induction false} NoRepairWithout(setup: Setup, w: World, i: nat, node: Node, st: State)
    requires Enterable(setup, node, st) && !node.PatchRepair? && (!setup.coding || setup.fakeProvider)
    ensures !Visited(RunGraph(setup, w, i, node, st).visits, PatchRepair)
    decreases RepairsLeft(setup, st), Height(node)
  {
    if !node.End? && !w.aborts(i) {
      var st' := RunNode(setup, w, i, node, st);
      NoRepairWithout(setup, w, i + 1, Next(setup, node, st'), st');
    }
  }

  /** Verification is repaired in coding runs of a real provider only. */
  lemma FakeProviderNeverRepairs(setup: Setup, w: World)
    requires !setup.coding || setup.fakeProvider
    ensures !Visited(RunFresh(setup, w).visits, PatchRepair)
  {
    NoRepairWithout(setup, w, 0, Intake, FRESH);
  }

  // ----- what the oracle answered -----

  /** The answer to a node leaves nothing for the review to object to. */
  ghost predicate GoodAnswer(w: World, k: nat, node: Node) {
    match node
    case CodingInspect => !w.inspectFails(k)
    case PatchPropose => Usable(w.proposal(k))
    case PatchRepair => Usable(w.proposal(k))
    case PatchApply => w.apply(k).Applied?
    case Reviewer => w.decision(k) == Decision(Proceed, false)
    case _ => true
  }

  /** A stored proposal, or a validated one that does not ask the operator. */
  predicate Usable(a: ProposalAnswer) {
    a.Existing? || (a.Proposed? && !a.action.NeedsOperator?)
  }

  lemma BadAnswerFails(setup: Setup, w: World, i: nat, node: Node, st: State)
    requires node in {CodingInspect, PatchPropose, PatchRepair} && !GoodAnswer(w, i, node)
    ensures Failed(RunNode(setup, w, i, node, st))
  {
  }

  lemma {:induction false} ReviewDecides(setup: Setup, w: World, i: nat, st: State)
    ensures var r := RunGraph(setup, w, i, Reviewer, st);
      !r.aborted && Accepted(r.final) ==> GoodAnswer(w, i, Reviewer) && PrecheckClean(st)
  {
    if !w.aborts(i) {
      var st1 := RunNode(setup, w, i, Reviewer, st);
      var rest := RunGraph(setup, w, i + 1, Synthesizer, st1);
      assert RunGraph(setup, w, i, Reviewer, st) == Prepend([Visit(Reviewer, Some(st1))], rest);
      if !w.aborts(i + 1) {
        var st2 := RunNode(setup, w, i + 1, Synthesizer, st1);
        assert rest == Prepend([Visit(Synthesizer, Some(st2))], RunGraph(setup, w, i + 2, End, st2));
      }
    }
  }

  ghost predicate AllAnswersGood(w: World, i: nat, visits: seq<Visit>) {
    forall k :: 0 <= k < |visits| ==> GoodAnswer(w, i + k, visits[k].node)
  }

  lemma AnswersPrepend(w: World, i: nat, v: Visit, visits: seq<Visit>)
    ensures AllAnswersGood(w, i, [v] + visits) <==> GoodAnswer(w, i, v.node) && AllAnswersGood(w, i + 1, visits)
  {
    var all := [v] + visits;
    assert all[0] == v;
    if AllAnswersGood(w, i, all) {
      forall k | 0 <= k < |visits| ensures GoodAnswer(w, i + 1 + k, visits[k].node) {
        assert GoodAnswer(w, i + (k + 1), all[k + 1].node);
      }
    }
  }

  lemma FirstAnswerGood(setup: Setup, w: World, i: nat, node: Node, st: State)
    requires Enterable(setup, node, st) && OnNativePath(node) && PathInv(node, st) && !node.End? && !w.aborts(i)
    requires var r := RunGraph(setup, w, i, node, st); !r.aborted && Accepted(r.final)
    ensures GoodAnswer(w, i, node)
  {
    var st' := RunNode(setup, w, i, node, st);
    AcceptedIsVerified(setup, w, i, node, st);
    if node in {CodingInspect, PatchPropose, PatchRepair} && !GoodAnswer(w, i, node) {
      BadAnswerFails(setup, w, i, node, st);
      FailureSticks(setup, w, i + 1, Next(setup, node, st'), st');
    }
    if node.PatchApply? {
      AcceptedAllApplied(setup, w, i, node, st);
      assert RunGraph(setup, w, i, node, st).visits[0] == Visit(PatchApply, Some(st'));
    }
    if node.Reviewer? {
      ReviewDecides(setup, w, i, st);
    }
  }

  lemma {:induction false} AcceptedAnswersFrom(setup: Setup, w: World, i: nat, node: Node, st: State)
    requires Enterable(setup, node, st) && OnNativePath(node) && PathInv(node, st)
    requires var r := RunGraph(setup, w, i, node, st); !r.aborted && Accepted(r.final)
    ensures AllAnswersGood(w, i, RunGraph(setup, w, i, node, st).visits)
    decreases RepairsLeft(setup, st), Height(node)
  {
    if !node.End? && !w.aborts(i) {
      var st' := RunNode(setup, w, i, node, st);
      var next := Next(setup, node, st');
      StepKeepsPathInv(setup, w, i, node, st);
      FirstAnswerGood(setup, w, i, node, st);
      AcceptedAnswersFrom(setup, w, i + 1, next, st');
      AnswersPrepend(w, i, Visit(node, Some(st')), RunGraph(setup, w, i + 1, next, st').visits);
    }
  }

  /** In terms of the oracle alone: when a native coding run is accepted, its inspection did not fail, every proposal
      asked for was usable, every patch applied, and the reviewer proceeded without blockers. So a failed inspection, a
      rejected proposal or an operator question cannot end accepted. */
  lemma AcceptedAnswers(setup: Setup, w: World)
    requires setup.coding && setup.nativeCoder && !setup.planOnly
    requires !RunFresh(setup, w).aborted && Accepted(RunFresh(setup, w).final)
    ensures AllAnswersGood(w, 0, RunFresh(setup, w).visits)
  {
    if !w.aborts(0) && !w.aborts(1) {
      var rest := RunGraph(setup, w, 2, CodingInspect, FRESH);
      FreshHead(setup, w);
      AcceptedAnswersFrom(setup, w, 2, CodingInspect, FRESH);
      AnswersPrepend(w, 1, Visit(Supervisor, Some(FRESH)), rest.visits);
      AnswersPrepend(w, 0, Visit(Intake, Some(FRESH)), [Visit(Supervisor, Some(FRESH))] + rest.visits);
    } else {
      FreshAborted(setup, w);
    }
  }

  /** ... and its last verification, run after the last application, was answered by success. */
  lemma AcceptedVerification(setup: Setup, w: World)
    requires setup.coding && setup.nativeCoder && !setup.planOnly
    requires !RunFresh(setup, w).aborted && Accepted(RunFresh(setup, w).final)
    ensures exists v: nat :: LastVerification(RunFresh(setup, w).visits, v) && w.verified(v)
  {
    var visits := RunFresh(setup, w).visits;
    AcceptedRunIsVerified(setup, w);
    RunIsChain(setup, w, 0, Intake, FRESH);
    var v := VerifiedAnswer(setup, w, visits);
    assert LastVerification(visits, v) && w.verified(v);
  }

  lemma VerifyAnswers(setup: Setup, w: World, i: nat, st: State)
    requires RunNode(setup, w, i, VerifyNode, st).verification == Ran(true)
    ensures w.verified(i)
  {
  }

  lemma VerifiedAnswer(setup: Setup, w: World, visits: seq<Visit>) returns (v: nat)
    requires VerifiedLast(visits) && Chain(setup, w, 0, Intake, FRESH, visits)
    ensures LastVerification(visits, v) && w.verified(v)
  {
    v :| v < |visits| && GoodVerify(visits[v])
         && forall k :: v < k < |visits| ==> !visits[k].node.PatchApply? && !visits[k].node.VerifyNode?;
    VerifyAnswers(setup, w, v, StateBefore(visits, FRESH, v));
  }

  /** v is a verification with no application or verification after it. */
  ghost predicate LastVerification(visits: seq<Visit>, v: nat) {
    && v < |visits| && visits[v].node.VerifyNode?
    && forall k :: v < k < |visits| ==> !visits[k].node.PatchApply? && !visits[k].node.VerifyNode?
  }

  /** A run over worker roles is accepted only if every worker result is ok and the reviewer proceeds. */
  lemma AcceptedWorkers(setup: Setup, w: World)
    requires !(setup.coding && setup.nativeCoder) && !setup.planOnly && !RunFresh(setup, w).aborted
    ensures Accepted(RunFresh(setup, w).final) ==> AllOk(w.workers(2)) && w.decision(3) == Decision(Proceed, false)
  {
    if !w.aborts(0) && !w.aborts(1) {
      FreshHead(setup, w);
      if !w.aborts(2) {
        var st := FRESH.(workerResults := w.workers(2));
        assert RunGraph(setup, w, 2, GraphWorkers, FRESH)
            == Prepend([Visit(GraphWorkers, Some(st))], RunGraph(setup, w, 3, Reviewer, st));
        ReviewDecides(setup, w, 3, st);
      }
    } else {
      FreshAborted(setup, w);
    }
  }

  // ----- failures go straight to the review -----

  ghost predicate MarkedFailed(v: Visit) {
    v.node in {CodingInspect, PatchPropose, PatchRepair} && v.after.Some? && Failed(v.after.value)
  }

  /** After a failed inspection, proposal or repair the next node is the reviewer. */
  ghost predicate FailuresReviewed(visits: seq<Visit>) {
    forall k :: 0 <= k < |visits| - 1 && MarkedFailed(visits[k]) ==> visits[k + 1].node.Reviewer?
  }

  lemma ReviewedPrepend(v: Visit, visits: seq<Visit>)
    requires FailuresReviewed(visits)
    requires visits != [] && MarkedFailed(v) ==> visits[0].node.Reviewer?
    ensures FailuresReviewed([v] + visits)
  {
    var all := [v] + visits;
    forall k | 0 <= k < |all| - 1 && MarkedFailed(all[k]) ensures all[k + 1].node.Reviewer? {
      assert all[k + 1] == visits[k];
      assert k > 0 ==> all[k] == visits[k - 1];
    }
  }

  lemma {:induction false} FailuresReviewedFrom(setup: Setup, w: World, i: nat, node: Node, st: State)
    requires Enterable(setup, node, st) && OnNativePath(node) && PathInv(node, st)
    ensures FailuresReviewed(RunGraph(setup, w, i, node, st).visits)
    decreases RepairsLeft(setup, st), Height(node)
  {
    if !node.End? && !w.aborts(i) {
      var st' := RunNode(setup, w, i, node, st);
      var next := Next(setup, node, st');
      StepKeepsPathInv(setup, w, i, node, st);
      FailuresReviewedFrom(setup, w, i + 1, next, st');
      RunIsChain(setup, w, i + 1, next, st');
      if node in {CodingInspect, PatchPropose, PatchRepair} {
        FailedRoute(setup, w, i, node, st);
      }
      ReviewedPrepend(Visit(node, Some(st')), RunGraph(setup, w, i + 1, next, st').visits);
    }
  }

  lemma FailedRoute(setup: Setup, w: World, i: nat, node: Node, st: State)
    requires PathInv(node, st) && node in {CodingInspect, PatchPropose, PatchRepair}
    ensures var st' := RunNode(setup, w, i, node, st); Failed(st') ==> Next(setup, node, st').Reviewer?
  {
  }

  lemma FreshFailuresReviewed(setup: Setup, w: World)
    requires setup.coding && setup.nativeCoder && !setup.planOnly
    ensures FailuresReviewed(RunFresh(setup, w).visits)
  {
    if !w.aborts(0) && !w.aborts(1) {
      var rest := RunGraph(setup, w, 2, CodingInspect, FRESH);
      FreshHead(setup, w);
      FailuresReviewedFrom(setup, w, 2, CodingInspect, FRESH);
      ReviewedPrepend(Visit(Supervisor, Some(FRESH)), rest.visits);
      ReviewedPrepend(Visit(Intake, Some(FRESH)), [Visit(Supervisor, Some(FRESH))] + rest.visits);
    } else {
      FreshAborted(setup, w);
    }
  }

  /** Each repair counts as an attempt, rejected or not, except one that asks the operator. */
  lemma RepairCounts(setup: Setup, w: World, i: nat, st: State)
    ensures RunNode(setup, w, i, PatchRepair, st).repairAttempts ==
      st.repairAttempts + if w.proposal(i) == Proposed(NeedsOperator) then 0 else 1
  {
  }

  /** A failure's category is kept as reported, except that a first proposal with an invalid patch has no valid
      candidate. */
  lemma CategoryIs(setup: Setup, w: World, i: nat, st: State, category: FailureCategory)
    requires w.proposal(i) == Rejected(category)
    ensures RunNode(setup, w, i, PatchRepair, st).category == Some(category)
    ensures RunNode(setup, w, i, PatchPropose, st).category ==
      Some(if category == PatchInvalid then NoValidCandidate else category)
  {
  }

  // ----- the reported status -----

  lemma {:induction false} PlanOnlyKept(setup: Setup, w: World, i: nat, node: Node, st: State)
    requires Enterable(setup, node, st) && st.planOnly == setup.planOnly
    ensures RunGraph(setup, w, i, node, st).final.planOnly == setup.planOnly
    decreases RepairsLeft(setup, st), Height(node)
  {
    if !node.End? && !w.aborts(i) {
      var st' := RunNode(setup, w, i, node, st);
      PlanOnlyKept(setup, w, i + 1, Next(setup, node, st'), st');
    }
  }

  /** How a finished run is reported: waiting exactly with pending approvals; otherwise failed exactly when it is a
      coding run, not plan-only, that was not accepted. */
  lemma OutcomeIff(setup: Setup, w: World, pendingApprovals: nat)
    requires !RunFresh(setup, w).aborted
    ensures var r := RunFresh(setup, w); var status := FinalStatus(setup, r.final, pendingApprovals);
      && (status.WaitingApproval? <==> pendingApprovals > 0)
      && (status.FailedVerification? <==>
            pendingApprovals == 0 && setup.coding && !setup.planOnly && !Accepted(r.final))
      && (status.Completed? <==> pendingApprovals == 0 && (!setup.coding || setup.planOnly || Accepted(r.final)))
  {
    if !w.aborts(0) && !w.aborts(1) {
      FreshHead(setup, w);
      PathClosed(setup);
      PlanOnlyKept(setup, w, 2, FirstNode(setup), FRESH.(planOnly := setup.planOnly));
    } else {
      FreshAborted(setup, w);
    }
  }

  /** The verdict of the merged review: blocked exactly under a precheck blocker, a reviewer's blocker or a blocking
      verdict; otherwise the reviewer's own verdict. */
  lemma ReviewVerdictIff(st: State, d: Decision)
    ensures var review := ReviewNode(st, d).review.value;
      && (review.verdict.Block? <==> !PrecheckClean(st) || d.blockers || d.verdict.Block?)
      && (!review.verdict.Block? ==> review.verdict == d.verdict)
  {
  }
}

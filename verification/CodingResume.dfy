/** What holds for a coding run continued after patch approvals. */
module CodingResume {
  import opened CodingGraph
  import opened Options

  // ----- one continuation -----

  lemma ReviewKeepsFailure(setup: Setup, w: World, i: nat, st: State)
    ensures var r := DriveReview(setup, w, i, st);
      && (Failed(st) ==> Failed(r.final)) && (!Failed(r.final) ==> NeverFailed(r.visits))
      && r.final.planOnly == st.planOnly
  {
  }

  lemma NeverFailedPrepend(v: Visit, visits: seq<Visit>)
    requires v.after.Some?
    ensures NeverFailed([v] + visits) <==> !Failed(v.after.value) && NeverFailed(visits)
  {
    var all := [v] + visits;
    assert all[0] == v;
    assert forall k :: 0 <= k < |visits| ==> all[k + 1] == visits[k];
  }

  /** The driver clears no failure mark either, so an unmarked end means no visited state was marked. */
  lemma {:induction false} DriverFailureSticks(setup: Setup, w: World, i: nat, st: State)
    ensures var r := DriveApply(setup, w, i, st);
      && (Failed(st) ==> Failed(r.final)) && (!Failed(r.final) ==> NeverFailed(r.visits))
      && r.final.planOnly == st.planOnly
    decreases RepairsLeft(setup, st), 1
  {
    if !w.aborts(i) && !w.aborts(i + 1) {
      var st1 := RunNode(setup, w, i, PatchApply, st);
      var st2 := RunNode(setup, w, i + 1, VerifyNode, st1);
      var v1, v2 := Visit(PatchApply, Some(st1)), Visit(VerifyNode, Some(st2));
      var rest := DriveLoop(setup, w, i + 2, st2);
      DriverLoopFailureSticks(setup, w, i + 2, st2);
      assert [v1, v2] + rest.visits == [v1] + ([v2] + rest.visits);
      NeverFailedPrepend(v1, [v2] + rest.visits);
      NeverFailedPrepend(v2, rest.visits);
    }
  }

  lemma {:induction false} DriverLoopFailureSticks(setup: Setup, w: World, i: nat, st: State)
    ensures var r := DriveLoop(setup, w, i, st);
      && (Failed(st) ==> Failed(r.final)) && (!Failed(r.final) ==> NeverFailed(r.visits))
      && r.final.planOnly == st.planOnly
    decreases RepairsLeft(setup, st), 0
  {
    if !WantsRepair(setup, st) {
      ReviewKeepsFailure(setup, w, i, st);
    } else if !w.aborts(i) {
      var st' := RunNode(setup, w, i, PatchRepair, st);
      NodeKeepsFailure(setup, w, i, PatchRepair, st);
      if RouteAfterRepair(st').Reviewer? {
        ReviewKeepsFailure(setup, w, i + 1, st');
        NeverFailedPrepend(Visit(PatchRepair, Some(st')), DriveReview(setup, w, i + 1, st').visits);
      } else {
        DriverFailureSticks(setup, w, i + 1, st');
        NeverFailedPrepend(Visit(PatchRepair, Some(st')), DriveApply(setup, w, i + 1, st').visits);
      }
    }
  }

  /** The state a resumed run starts from: nothing but what its artifacts say. */
  function Resumed(a: Artifact): State {
    Hydrate(FRESH, a)
  }

  /** The review gate of a continuation in full: accepted means verified after the last applied patch, a clean precheck,
      and no failure mark in any visited state. */
  lemma AcceptedContinuation(setup: Setup, w: World, i: nat, st: State)
    ensures var r := DriveApply(setup, w, i, st);
      !r.aborted && Accepted(r.final) ==> VerifiedLast(r.visits) && NeverFailed(r.visits) && PrecheckClean(r.final)
  {
    DriverAcceptedIsVerified(setup, w, i, st);
    DriverFailureSticks(setup, w, i, st);
  }

  /** ... and only such a continuation is reported as completed. */
  lemma CompletedContinuation(setup: Setup, w: World, a: Artifact, pendingApprovals: nat)
    requires setup.coding && !setup.planOnly
    ensures var r := DriveApply(setup, w, 0, Resumed(a));
      !r.aborted && FinalStatus(setup, r.final, pendingApprovals).Completed? ==>
        pendingApprovals == 0 && VerifiedLast(r.visits) && NeverFailed(r.visits) && PrecheckClean(r.final)
  {
    AcceptedContinuation(setup, w, 0, Resumed(a));
    DriverFailureSticks(setup, w, 0, Resumed(a));
  }

  /** How a finished continuation is reported: waiting exactly with pending approvals, otherwise failed exactly when it
      was not accepted. */
  lemma ContinuationOutcomeIff(setup: Setup, w: World, a: Artifact, pendingApprovals: nat)
    requires setup.coding && !setup.planOnly && !DriveApply(setup, w, 0, Resumed(a)).aborted
    ensures var r := DriveApply(setup, w, 0, Resumed(a)); var status := FinalStatus(setup, r.final, pendingApprovals);
      && (status.WaitingApproval? <==> pendingApprovals > 0)
      && (status.FailedVerification? <==> pendingApprovals == 0 && !Accepted(r.final))
      && (status.Completed? <==> pendingApprovals == 0 && Accepted(r.final))
  {
    DriverFailureSticks(setup, w, 0, Resumed(a));
  }

  // ----- a run interrupted by patch approvals -----

  /** The segment stopped at an application, as it does when the patch needs an approval. */
  predicate Interrupted(r: Run) {
    r.aborted && r.visits != [] && r.visits[|r.visits| - 1] == Visit(PatchApply, None)
  }

  /** One continuation: its behaviour and the action of the stored proposal. */
  datatype Continuation = Continuation(world: World, action: Action)

  /** Repairs entered by the graph run and the continuations so far. */
  function TotalRepairs(setup: Setup, w: World, more: seq<Continuation>): nat
    decreases |more|, 1
  {
    (if more == [] then 0 else TotalRepairs(setup, w, more[..|more| - 1]))
    + CountVisits(LastSegment(setup, w, more).visits, PatchRepair)
  }

  /** The graph run, or the last continuation. A repair of an interrupted segment has stored its proposal, so from the
      first one on the counter restarts at one. */
  function LastSegment(setup: Setup, w: World, more: seq<Continuation>): Run
    decreases |more|, 0
  {
    if more == [] then RunFresh(setup, w)
    else
      var last := more[|more| - 1];
      DriveApply(setup, last.world, 0,
                 Resumed(Artifact(last.action, TotalRepairs(setup, w, more[..|more| - 1]) > 0)))
  }

  function AfterFirst(limit: nat): nat {
    if limit > 0 then limit - 1 else 0
  }

  function RepairBound(limit: nat, n: nat): nat {
    if n == 0 then limit else RepairBound(limit, n - 1) + AfterFirst(limit)
  }

  lemma {:induction false} RepairBoundIs(limit: nat, n: nat)
    ensures RepairBound(limit, n) == limit + n * AfterFirst(limit)
  {
    if n > 0 {
      RepairBoundIs(limit, n - 1);
      assert n * AfterFirst(limit) == (n - 1) * AfterFirst(limit) + AfterFirst(limit);
    }
  }

  /** The repairs of one continuation. */
  lemma ContinuationRepairs(setup: Setup, c: Continuation, repaired: bool)
    ensures CountVisits(DriveApply(setup, c.world, 0, Resumed(Artifact(c.action, repaired))).visits, PatchRepair) <=
      if repaired then AfterFirst(setup.repairLimit) else setup.repairLimit
  {
    DriverBounded(setup, c.world, 0, Resumed(Artifact(c.action, repaired)));
  }

  lemma TotalStep(setup: Setup, w: World, more: seq<Continuation>)
    requires more != []
    ensures var front, last := more[..|more| - 1], more[|more| - 1]; var before := TotalRepairs(setup, w, front);
      TotalRepairs(setup, w, more) ==
        before
        + CountVisits(DriveApply(setup, last.world, 0, Resumed(Artifact(last.action, before > 0))).visits, PatchRepair)
  {
  }

  /** A run that is continued n times enters repair at most limit + n * (limit - 1) times: more than the limit says,
      because the counter restarts with every continuation. */
  lemma {:induction false} TotalRepairsBounded(setup: Setup, w: World, more: seq<Continuation>)
    ensures TotalRepairs(setup, w, more) <= RepairBound(setup.repairLimit, |more|)
  {
    if more == [] {
      FreshRunBounded(setup, w);
    } else {
      var front, last := more[..|more| - 1], more[|more| - 1];
      TotalRepairsBounded(setup, w, front);
      TotalStep(setup, w, more);
      ContinuationRepairs(setup, last, TotalRepairs(setup, w, front) > 0);
      AtLeastLimit(setup.repairLimit, |more|);
    }
  }

  lemma {:induction false} AtLeastLimit(limit: nat, n: nat)
    ensures RepairBound(limit, n) >= limit
  {
    if n > 0 {
      AtLeastLimit(limit, n - 1);
    }
  }

  // ----- repairs of an interrupted segment -----

  /** Every repair finished with a stored proposal. */
  ghost predicate RepairsStored(visits: seq<Visit>) {
    forall k :: 0 <= k < |visits| && visits[k].node.PatchRepair? ==>
      visits[k].after.Some? && !RouteAfterRepair(visits[k].after.value).Reviewer?
  }

  lemma StoredPrepend(v: Visit, visits: seq<Visit>)
    requires RepairsStored(visits)
    requires v.node.PatchRepair? ==> v.after.Some? && !RouteAfterRepair(v.after.value).Reviewer?
    ensures RepairsStored([v] + visits)
  {
    var all := [v] + visits;
    assert forall k :: 0 < k < |all| ==> all[k] == visits[k - 1];
  }

  lemma InterruptedRest(v: Visit, r: Run)
    requires Interrupted(Prepend([v], r)) && v.after.Some?
    ensures Interrupted(r)
  {
  }

  lemma GraphStep(setup: Setup, w: World, i: nat, node: Node, st: State)
    requires Enterable(setup, node, st) && !node.End? && !w.aborts(i)
    ensures var st' := RunNode(setup, w, i, node, st);
      RunGraph(setup, w, i, node, st)
      == Prepend([Visit(node, Some(st'))], RunGraph(setup, w, i + 1, Next(setup, node, st'), st'))
  {
  }

  lemma ReviewNotInterrupted(setup: Setup, w: World, i: nat, st: State)
    ensures !Interrupted(RunGraph(setup, w, i, Reviewer, st))
  {
    ReviewTail(setup, w, i, Reviewer, st);
  }

  lemma StoredStep(v: Visit, rest: Run)
    requires v.after.Some? && (Interrupted(rest) ==> RepairsStored(rest.visits))
    requires v.node.PatchRepair? && RouteAfterRepair(v.after.value).Reviewer? ==> !Interrupted(rest)
    ensures Interrupted(Prepend([v], rest)) ==> RepairsStored(Prepend([v], rest).visits)
  {
    if Interrupted(Prepend([v], rest)) {
      InterruptedRest(v, rest);
      StoredPrepend(v, rest.visits);
    }
  }

  /** So the artifact a continuation reads is a repair proposal exactly when repairs were entered before. */
  lemma {:induction false} GraphRepairsStored(setup: Setup, w: World, i: nat, node: Node, st: State)
    requires Enterable(setup, node, st)
    ensures var r := RunGraph(setup, w, i, node, st); Interrupted(r) ==> RepairsStored(r.visits)
    decreases RepairsLeft(setup, st), Height(node)
  {
    if !node.End? && !w.aborts(i) {
      var st' := RunNode(setup, w, i, node, st);
      var next := Next(setup, node, st');
      GraphStep(setup, w, i, node, st);
      GraphRepairsStored(setup, w, i + 1, next, st');
      if next.Reviewer? {
        ReviewNotInterrupted(setup, w, i + 1, st');
      }
      StoredStep(Visit(node, Some(st')), RunGraph(setup, w, i + 1, next, st'));
    }
  }

  lemma {:induction false} DriverRepairsStored(setup: Setup, w: World, i: nat, st: State)
    ensures var r := DriveApply(setup, w, i, st); Interrupted(r) ==> RepairsStored(r.visits)
    decreases RepairsLeft(setup, st), 1
  {
    if !w.aborts(i) && !w.aborts(i + 1) && Interrupted(DriveApply(setup, w, i, st)) {
      var st1 := RunNode(setup, w, i, PatchApply, st);
      var st2 := RunNode(setup, w, i + 1, VerifyNode, st1);
      var v1, v2, rest := Visit(PatchApply, Some(st1)), Visit(VerifyNode, Some(st2)), DriveLoop(setup, w, i + 2, st2);
      assert [v1, v2] + rest.visits == [v1] + ([v2] + rest.visits);
      InterruptedRest(v1, Prepend([v2], rest));
      InterruptedRest(v2, rest);
      DriverLoopRepairsStored(setup, w, i + 2, st2);
      StoredPrepend(v2, rest.visits);
      StoredPrepend(v1, [v2] + rest.visits);
    }
  }

  lemma {:induction false} DriverLoopRepairsStored(setup: Setup, w: World, i: nat, st: State)
    ensures var r := DriveLoop(setup, w, i, st); Interrupted(r) ==> RepairsStored(r.visits)
    decreases RepairsLeft(setup, st), 0
  {
    if WantsRepair(setup, st) && !w.aborts(i) && Interrupted(DriveLoop(setup, w, i, st)) {
      var st' := RunNode(setup, w, i, PatchRepair, st);
      var v := Visit(PatchRepair, Some(st'));
      if RouteAfterRepair(st').Reviewer? {
        InterruptedRest(v, DriveReview(setup, w, i + 1, st'));
      } else {
        var rest := DriveApply(setup, w, i + 1, st');
        InterruptedRest(v, rest);
        DriverRepairsStored(setup, w, i + 1, st');
        StoredPrepend(v, rest.visits);
      }
    }
  }

  // ----- the bound is exact -----

  /** Patches always apply, verification always fails, and the run is stopped at node execution `stop`. */
  function Stubborn(stop: nat): World {
    World(i => i == stop, i => [], i => false, i => Proposed(Patch), i => Applied(true), i => false,
          i => Decision(Proceed, false))
  }

  predicate Repairable(setup: Setup, st: State) {
    setup.coding && !setup.fakeProvider && st.action == Some(Patch) && !st.repairError
  }

  /** The state one application, verification and repair later. */
  function NextRound(st: State): State {
    st.(patchResults := [true, true], verification := Ran(false), repairAttempts := st.repairAttempts + 1)
  }

  function RoundVisits(st: State): seq<Visit> {
    var applied := st.(patchResults := [true, true]);
    [Visit(PatchApply, Some(applied)), Visit(VerifyNode, Some(applied.(verification := Ran(false)))),
     Visit(PatchRepair, Some(NextRound(st)))]
  }

  lemma RoundNodes(setup: Setup, stop: nat, i: nat, st: State)
    requires Repairable(setup, st) && RepairsLeft(setup, st) > 0
    ensures var w, applied := Stubborn(stop), st.(patchResults := [true, true]);
      var failed := applied.(verification := Ran(false));
      && RunNode(setup, w, i, PatchApply, st) == applied
      && RunNode(setup, w, i + 1, VerifyNode, applied) == failed && WantsRepair(setup, failed)
      && RunNode(setup, w, i + 2, PatchRepair, failed) == NextRound(st)
      && RouteAfterRepair(NextRound(st)).PatchApply?
      && Repairable(setup, NextRound(st)) && RepairsLeft(setup, NextRound(st)) == RepairsLeft(setup, st) - 1
  {
  }

  lemma RoundPrepend(st: State, r: Run)
    ensures var v := RoundVisits(st);
      Prepend([v[0], v[1]], Prepend([v[2]], r)) == Prepend(v, r) == Prepend([v[0]], Prepend([v[1]], Prepend([v[2]], r)))
    ensures CountVisits(Prepend(RoundVisits(st), r).visits, PatchRepair) == CountVisits(r.visits, PatchRepair) + 1
    ensures Interrupted(r) ==> Interrupted(Prepend(RoundVisits(st), r))
  {
    var v := RoundVisits(st);
    assert [v[0], v[1]] + ([v[2]] + r.visits) == v + r.visits == [v[0]] + ([v[1]] + ([v[2]] + r.visits));
    CountPrepend(v[2], r.visits, PatchRepair);
    CountPrepend(v[1], [v[2]] + r.visits, PatchRepair);
    CountPrepend(v[0], [v[1]] + ([v[2]] + r.visits), PatchRepair);
  }

  lemma DriverRound(setup: Setup, stop: nat, i: nat, st: State)
    requires Repairable(setup, st) && RepairsLeft(setup, st) > 0 && i + 2 < stop
    ensures DriveApply(setup, Stubborn(stop), i, st) ==
      Prepend(RoundVisits(st), DriveApply(setup, Stubborn(stop), i + 3, NextRound(st)))
  {
    RoundNodes(setup, stop, i, st);
    RoundPrepend(st, DriveApply(setup, Stubborn(stop), i + 3, NextRound(st)));
  }

  lemma GraphRound(setup: Setup, stop: nat, i: nat, st: State)
    requires Repairable(setup, st) && RepairsLeft(setup, st) > 0 && i + 2 < stop
    ensures RunGraph(setup, Stubborn(stop), i, PatchApply, st) ==
      Prepend(RoundVisits(st), RunGraph(setup, Stubborn(stop), i + 3, PatchApply, NextRound(st)))
  {
    var w, v := Stubborn(stop), RoundVisits(st);
    var st1 := st.(patchResults := [true, true]);
    var st2 := st1.(verification := Ran(false));
    RoundNodes(setup, stop, i, st);
    var rest := RunGraph(setup, w, i + 3, PatchApply, NextRound(st));
    assert RunGraph(setup, w, i + 2, PatchRepair, st2) == Prepend([v[2]], rest);
    assert RunGraph(setup, w, i + 1, VerifyNode, st1) == Prepend([v[1]], Prepend([v[2]], rest));
    RoundPrepend(st, rest);
  }

  lemma AddRound(st: State, r: Run, whole: Run, left: nat)
    requires Interrupted(r) && CountVisits(r.visits, PatchRepair) == left && whole == Prepend(RoundVisits(st), r)
    ensures Interrupted(whole) && CountVisits(whole.visits, PatchRepair) == left + 1
  {
    RoundPrepend(st, r);
  }

  lemma DriverStops(setup: Setup, w: World, i: nat, st: State)
    requires w.aborts(i)
    ensures var r := DriveApply(setup, w, i, st); Interrupted(r) && CountVisits(r.visits, PatchRepair) == 0
  {
    CountShort();
  }

  lemma {:induction false} StubbornDriver(setup: Setup, stop: nat, i: nat, st: State)
    requires Repairable(setup, st) && stop == i + 3 * RepairsLeft(setup, st)
    ensures var r := DriveApply(setup, Stubborn(stop), i, st);
      Interrupted(r) && CountVisits(r.visits, PatchRepair) == RepairsLeft(setup, st)
    decreases RepairsLeft(setup, st)
  {
    if RepairsLeft(setup, st) == 0 {
      DriverStops(setup, Stubborn(stop), i, st);
    } else {
      RoundNodes(setup, stop, i, st);
      StubbornDriver(setup, stop, i + 3, NextRound(st));
      DriverRound(setup, stop, i, st);
      AddRound(st, DriveApply(setup, Stubborn(stop), i + 3, NextRound(st)),
               DriveApply(setup, Stubborn(stop), i, st), RepairsLeft(setup, st) - 1);
    }
  }

  lemma GraphStops(setup: Setup, w: World, i: nat, st: State)
    requires w.aborts(i)
    ensures var r := RunGraph(setup, w, i, PatchApply, st); Interrupted(r) && CountVisits(r.visits, PatchRepair) == 0
  {
    CountShort();
  }

  lemma {:induction false} StubbornGraph(setup: Setup, stop: nat, i: nat, st: State)
    requires Repairable(setup, st) && stop == i + 3 * RepairsLeft(setup, st)
    ensures var r := RunGraph(setup, Stubborn(stop), i, PatchApply, st);
      Interrupted(r) && CountVisits(r.visits, PatchRepair) == RepairsLeft(setup, st)
    decreases RepairsLeft(setup, st)
  {
    if RepairsLeft(setup, st) == 0 {
      GraphStops(setup, Stubborn(stop), i, st);
    } else {
      RoundNodes(setup, stop, i, st);
      StubbornGraph(setup, stop, i + 3, NextRound(st));
      GraphRound(setup, stop, i, st);
      AddRound(st, RunGraph(setup, Stubborn(stop), i + 3, PatchApply, NextRound(st)),
               RunGraph(setup, Stubborn(stop), i, PatchApply, st), RepairsLeft(setup, st) - 1);
    }
  }

  lemma PrependOther(v: Visit, r: Run)
    requires Interrupted(r) && !v.node.PatchRepair?
    ensures Interrupted(Prepend([v], r))
    ensures CountVisits(Prepend([v], r).visits, PatchRepair) == CountVisits(r.visits, PatchRepair)
  {
    CountPrepend(v, r.visits, PatchRepair);
  }

  /** A step before the first application changes neither the interruption nor the number of repairs. */
  lemma StubbornStep(setup: Setup, stop: nat, i: nat, node: Node, st: State, next: Node, st': State)
    requires i != stop && !node.End? && !node.PatchRepair?
    requires st' == RunNode(setup, Stubborn(stop), i, node, st) && next == Next(setup, node, st') && !next.PatchRepair?
    requires Interrupted(RunGraph(setup, Stubborn(stop), i + 1, next, st'))
    ensures Interrupted(RunGraph(setup, Stubborn(stop), i, node, st))
    ensures CountVisits(RunGraph(setup, Stubborn(stop), i, node, st).visits, PatchRepair)
            == CountVisits(RunGraph(setup, Stubborn(stop), i + 1, next, st').visits, PatchRepair)
  {
    GraphStep(setup, Stubborn(stop), i, node, st);
    PrependOther(Visit(node, Some(st')), RunGraph(setup, Stubborn(stop), i + 1, next, st'));
  }

  /** The graph entered at the node is stopped by an approval after the given number of repairs. */
  ghost predicate StoppedAfter(setup: Setup, stop: nat, i: nat, node: Node, st: State, repairs: nat)
    requires Enterable(setup, node, st)
  {
    var r := RunGraph(setup, Stubborn(stop), i, node, st);
    Interrupted(r) && CountVisits(r.visits, PatchRepair) == repairs
  }

  lemma ProposeStops(setup: Setup, stop: nat, repairs: nat)
    requires stop > 3 && StoppedAfter(setup, stop, 4, PatchApply, FRESH.(action := Some(Patch)), repairs)
    ensures StoppedAfter(setup, stop, 3, PatchPropose, FRESH, repairs)
  {
    StubbornStep(setup, stop, 3, PatchPropose, FRESH, PatchApply, FRESH.(action := Some(Patch)));
  }

  lemma InspectStops(setup: Setup, stop: nat, repairs: nat)
    requires stop > 3 && StoppedAfter(setup, stop, 3, PatchPropose, FRESH, repairs)
    ensures StoppedAfter(setup, stop, 2, CodingInspect, FRESH, repairs)
  {
    StubbornStep(setup, stop, 2, CodingInspect, FRESH, PatchPropose, FRESH);
  }

  lemma SupervisorStops(setup: Setup, stop: nat, repairs: nat)
    requires setup.coding && setup.nativeCoder && !setup.planOnly
    requires stop > 3 && StoppedAfter(setup, stop, 2, CodingInspect, FRESH, repairs)
    ensures StoppedAfter(setup, stop, 1, Supervisor, FRESH, repairs)
  {
    StubbornStep(setup, stop, 1, Supervisor, FRESH, CodingInspect, FRESH);
  }

  lemma IntakeStops(setup: Setup, stop: nat, repairs: nat)
    requires stop > 3 && StoppedAfter(setup, stop, 1, Supervisor, FRESH, repairs)
    ensures StoppedAfter(setup, stop, 0, Intake, FRESH, repairs)
  {
    StubbornStep(setup, stop, 0, Intake, FRESH, Supervisor, FRESH);
  }

  lemma StubbornFresh(setup: Setup)
    requires setup.coding && setup.nativeCoder && !setup.planOnly && !setup.fakeProvider
    ensures StoppedAfter(setup, 4 + 3 * setup.repairLimit, 0, Intake, FRESH, setup.repairLimit)
  {
    var stop := 4 + 3 * setup.repairLimit;
    StubbornGraph(setup, stop, 4, FRESH.(action := Some(Patch)));
    ProposeStops(setup, stop, setup.repairLimit);
    InspectStops(setup, stop, setup.repairLimit);
    SupervisorStops(setup, stop, setup.repairLimit);
    IntakeStops(setup, stop, setup.repairLimit);
  }

  function StubbornContinuations(limit: nat, n: nat): (more: seq<Continuation>)
    ensures |more| == n
  {
    if n == 0 then [] else StubbornContinuations(limit, n - 1) + [Continuation(Stubborn(3 * AfterFirst(limit)), Patch)]
  }

  /** Every segment was stopped by an approval. */
  ghost predicate AllInterrupted(setup: Setup, w: World, more: seq<Continuation>) {
    forall n :: 0 <= n <= |more| ==> Interrupted(LastSegment(setup, w, more[..n]))
  }

  lemma FreshSegment(setup: Setup, w: World)
    ensures LastSegment(setup, w, []) == RunGraph(setup, w, 0, Intake, FRESH)
    ensures TotalRepairs(setup, w, []) == CountVisits(RunFresh(setup, w).visits, PatchRepair)
  {
  }

  lemma ResumedLeft(setup: Setup, repaired: bool)
    requires repaired == (setup.repairLimit > 0)
    ensures RepairsLeft(setup, Resumed(Artifact(Patch, repaired))) == AfterFirst(setup.repairLimit)
  {
  }

  lemma AppendInterrupted(setup: Setup, w: World, more: seq<Continuation>, c: Continuation)
    requires AllInterrupted(setup, w, more) && Interrupted(LastSegment(setup, w, more + [c]))
    ensures AllInterrupted(setup, w, more + [c])
  {
    forall n | 0 <= n <= |more| + 1 ensures Interrupted(LastSegment(setup, w, (more + [c])[..n])) {
      if n <= |more| {
        assert (more + [c])[..n] == more[..n];
      } else {
        assert (more + [c])[..n] == more + [c];
      }
    }
  }

  /** For every number of continuations the bound is reached, by segments each stopped at an approval. */
  lemma {:induction false} BoundReached(setup: Setup, n: nat)
    requires setup.coding && setup.nativeCoder && !setup.planOnly && !setup.fakeProvider
    ensures var w, more := Stubborn(4 + 3 * setup.repairLimit), StubbornContinuations(setup.repairLimit, n);
      TotalRepairs(setup, w, more) == RepairBound(setup.repairLimit, n) && AllInterrupted(setup, w, more)
  {
    var w, more := Stubborn(4 + 3 * setup.repairLimit), StubbornContinuations(setup.repairLimit, n);
    if n == 0 {
      StubbornFresh(setup);
      FreshSegment(setup, w);
    } else {
      var front := StubbornContinuations(setup.repairLimit, n - 1);
      var stop := 3 * AfterFirst(setup.repairLimit);
      var c := Continuation(Stubborn(stop), Patch);
      assert more[..n - 1] == front;
      BoundReached(setup, n - 1);
      AtLeastLimit(setup.repairLimit, n - 1);
      BoundPositive(setup.repairLimit, n - 1);
      ResumedLeft(setup, TotalRepairs(setup, w, front) > 0);
      StubbornDriver(setup, stop, 0, Resumed(Artifact(Patch, TotalRepairs(setup, w, front) > 0)));
      TotalStep(setup, w, more);
      AppendInterrupted(setup, w, front, c);
    }
  }

  lemma {:induction false} BoundPositive(limit: nat, n: nat)
    ensures RepairBound(limit, n) > 0 <==> limit > 0
  {
    if n > 0 {
      BoundPositive(limit, n - 1);
    }
  }

  /** The exact bound: over all behaviours a run continued n times enters repair at most limit + n * (limit - 1) times,
      and some run does. */
  lemma RepairsOverContinuations(setup: Setup, n: nat)
    requires setup.coding && setup.nativeCoder && !setup.planOnly && !setup.fakeProvider
    ensures forall w, more: seq<Continuation> :: |more| == n ==>
              TotalRepairs(setup, w, more) <= setup.repairLimit + n * AfterFirst(setup.repairLimit)
    ensures exists w, more: seq<Continuation> :: |more| == n && AllInterrupted(setup, w, more)
              && TotalRepairs(setup, w, more) == setup.repairLimit + n * AfterFirst(setup.repairLimit)
  {
    RepairBoundIs(setup.repairLimit, n);
    forall w, more: seq<Continuation> | |more| == n
      ensures TotalRepairs(setup, w, more) <= setup.repairLimit + n * AfterFirst(setup.repairLimit)
    {
      TotalRepairsBounded(setup, w, more);
    }
    BoundReached(setup, n);
  }
}

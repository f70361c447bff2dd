/** Concurrent Fabricator processes sharing one run directory under its lock file. */
module FabricatorLock {
  import opened Options
  import opened FabricatorModel
  import opened FabricatorTheorems
  import opened FabricatorHistory
  import LockProtocol

  type Pid = LockProtocol.Pid

  function ToSection(e: Effect): LockProtocol.Section<Run> {
    LockProtocol.Section(e.writes, e.ok)
  }

  /** A command's section: its writes to run.json as a function of the content it reads. */
  function Behaviour(step: Step): Run -> LockProtocol.Section<Run> {
    (r: Run) => ToSection(EffectOf(step.cmd, step.env, r))
  }

  function Behaviours(commands: map<Pid, Step>): LockProtocol.Programs<Run> {
    map p | p in commands :: Behaviour(commands[p])
  }

  /** The shared directory after a schedule of turns and kills. */
  function SharedRun(init: Run, commands: map<Pid, Step>, events: seq<LockProtocol.Event>): LockProtocol.Sys<Run> {
    var programs := Behaviours(commands);
    LockProtocol.Schedule(programs, LockProtocol.Start(init, programs), events)
  }

  /** The finished commands in the order of their sections. */
  function StepsOf(commands: map<Pid, Step>, pids: seq<Pid>): seq<Step>
    requires forall k :: 0 <= k < |pids| ==> pids[k] in commands
  {
    if pids == [] then [] else StepsOf(commands, pids[..|pids| - 1]) + [commands[pids[|pids| - 1]]]
  }

  lemma ExecAppend(init: Run, steps: seq<Step>, last: Step)
    ensures Exec(init, steps + [last]) == Perform(Exec(init, steps), last)
  {
    assert (steps + [last])[..|steps|] == steps;
  }

  lemma SectionResult(r: Run, e: Effect)
    ensures LockProtocol.Result(r, ToSection(e)) == After(r, e)
  {
  }

  lemma BehaviourPerforms(r: Run, step: Step)
    ensures LockProtocol.Result(r, Behaviour(step)(r)) == Perform(r, step)
  {
    SectionResult(r, EffectOf(step.cmd, step.env, r));
  }

  lemma {:induction false} SerialIsExec(init: Run, commands: map<Pid, Step>, pids: seq<Pid>)
    requires forall k :: 0 <= k < |pids| ==> pids[k] in commands
    ensures LockProtocol.Serial(init, Behaviours(commands), pids) == Exec(init, StepsOf(commands, pids))
  {
    if pids != [] {
      var front, last := pids[..|pids| - 1], commands[pids[|pids| - 1]];
      SerialIsExec(init, commands, front);
      ExecAppend(init, StepsOf(commands, front), last);
      BehaviourPerforms(Exec(init, StepsOf(commands, front)), last);
    }
  }

  lemma {:induction false} StepsWithin(commands: map<Pid, Step>, pids: seq<Pid>, cap: nat)
    requires forall k :: 0 <= k < |pids| ==> pids[k] in commands
    requires forall p :: p in commands ==> commands[p].env.maxActive <= cap
    ensures forall k :: 0 <= k < |StepsOf(commands, pids)| ==> StepsOf(commands, pids)[k].env.maxActive <= cap
  {
    if pids != [] {
      StepsWithin(commands, pids[..|pids| - 1], cap);
    }
  }

  /** Under every interleaving and with any process killed anywhere: while the lock is free, run.json is exactly what
      the finished commands produce one after another, so no finished command's update is lost. */
  lemma ConcurrentRunIsSerial(init: Run, commands: map<Pid, Step>, events: seq<LockProtocol.Event>)
    ensures var s := SharedRun(init, commands, events);
      && (forall k :: 0 <= k < |s.done| ==> s.done[k] in commands && s.done[k] in s.pcs && s.pcs[s.done[k]].Exited?)
      && (forall p :: p in s.pcs && s.pcs[p].Exited? ==> p in s.done)
      && (s.lock.None? ==> s.file == Exec(init, StepsOf(commands, s.done)))
  {
    LockProtocol.InterleavingIsSerial(init, Behaviours(commands), events);
    var s := SharedRun(init, commands, events);
    forall k | 0 <= k < |s.done| ensures s.done[k] in commands && s.pcs[s.done[k]].Exited? {
      assert LockProtocol.Reported(init, Behaviours(commands), s, k);
    }
    SerialIsExec(init, commands, s.done);
  }

  lemma {:induction false} ValidateKeepsRounds(r: Run, env: Env, phase: Phase, ids: seq<Id>, k: nat)
    requires k <= |ids|
    ensures forall w :: w in ValidateFrom(r, env, phase, ids, k).writes ==> w.rounds == r.rounds
    decreases |ids| - k
  {
    if k < |ids| {
      ValidateKeepsRounds(MarkCompleted(r, phase, ids[k]), env, phase, ids, k + 1);
    }
  }

  lemma ChallengeWritesOneRound(r: Run, env: Env, w: Run)
    requires r.rounds == [] || |r.rounds| == 1
    requires w in EffectOf(DispatchChallenge, env, r).writes
    ensures |w.rounds| == 1
  {
  }

  lemma DispatchesKeepRounds(r: Run, env: Env, w: Run)
    requires w in DispatchExpertsEffect(r, env).writes + DispatchReviewEffect(r, env).writes
    ensures w.rounds == r.rounds
  {
  }

  lemma DecisionsKeepRounds(r: Run, env: Env, w: Run)
    requires w in SynthesizeEffect(r, env).writes + DecisionEffect(r, env).writes
    ensures w.rounds == r.rounds
  {
  }

  lemma AgentEventsKeepRounds(r: Run, env: Env, phase: Phase, expert: Id, w: Run)
    requires w in AgentStartedEffect(r, env, phase, expert).writes + AgentCompletedEffect(r, env, phase, expert).writes
                  + AgentFailedEffect(r, phase, expert).writes
    ensures w.rounds == r.rounds
  {
  }

  /** No write of any command, first or intermediate, holds a second challenge round. */
  lemma WritesKeepOneRound(r: Run, step: Step, w: Run)
    requires |r.rounds| <= 1 && w in EffectOf(step.cmd, step.env, r).writes
    ensures |w.rounds| <= 1
  {
    match step.cmd
    case DispatchChallenge => ChallengeWritesOneRound(r, step.env, w);
    case RenderChallengePrompts(_) =>
    case ValidateResponses(phase) => ValidateKeepsRounds(r, step.env, phase, ExpectedIds(r, phase), 0);
    case DispatchExperts => DispatchesKeepRounds(r, step.env, w);
    case DispatchReview => DispatchesKeepRounds(r, step.env, w);
    case Synthesize => DecisionsKeepRounds(r, step.env, w);
    case MarkDecisionReady => DecisionsKeepRounds(r, step.env, w);
    case AgentStarted(phase, expert) => AgentEventsKeepRounds(r, step.env, phase, expert, w);
    case AgentCompleted(phase, expert) => AgentEventsKeepRounds(r, step.env, phase, expert, w);
    case AgentFailed(phase, expert) => AgentEventsKeepRounds(r, step.env, phase, expert, w);
    case _ =>
  }

  /** At every moment of every interleaving at most one challenge round is on file and the started agents fit the
      policy. */
  lemma SharedFileInvariants(init: Run, commands: map<Pid, Step>, events: seq<LockProtocol.Event>, cap: nat)
    requires Initial(init) && forall p :: p in commands ==> commands[p].env.maxActive <= cap
    ensures var file := SharedRun(init, commands, events).file;
            |file.rounds| <= 1 && |ActiveAgents(file.agents)| <= cap
  {
    var programs, s := Behaviours(commands), SharedRun(init, commands, events);
    ConcurrentRunIsSerial(init, commands, events);
    LockProtocol.InterleavingIsSerial(init, programs, events);
    SerialIsExec(init, commands, s.done);
    var base := Exec(init, StepsOf(commands, s.done));
    StepsWithin(commands, s.done, cap);
    OneChallengeRound(init, StepsOf(commands, s.done));
    ActiveAgentsCapped(init, StepsOf(commands, s.done), cap);
    if s.lock.Some? {
      var step := commands[s.lock.value];
      var e := LockProtocol.SectionEffect(programs, s.lock.value, base);
      CapKept(base, step, cap);
      var k :| 0 <= k <= |e.writes| && s.file == LockProtocol.AfterWrites(base, e, k);
      if k > 0 {
        assert e.writes[k - 1] in e.writes;
        WritesKeepOneRound(base, step, e.writes[k - 1]);
      }
    }
  }

  /** A command's k-th write follows what the file shows after the writes before it. */
  lemma NextWriteFollows(base: Run, commands: map<Pid, Step>, p: Pid, k: nat)
    requires p in commands && k < |LockProtocol.SectionEffect(Behaviours(commands), p, base).writes|
    ensures var e := LockProtocol.SectionEffect(Behaviours(commands), p, base);
      WriteFollows(LockProtocol.AfterWrites(base, e, k), e.writes[k])
  {
    var chain := [base] + EffectOf(commands[p].cmd, commands[p].env, base).writes;
    WritesChained(base, commands[p]);
    assert WriteFollows(chain[k], chain[k + 1]);
  }

  /** Under every interleaving each single change of the shared file follows the status graph. */
  lemma SharedWriteFollows(init: Run, commands: map<Pid, Step>, events: seq<LockProtocol.Event>,
                           event: LockProtocol.Event)
    ensures var s := SharedRun(init, commands, events); var t := LockProtocol.Next(Behaviours(commands), s, event);
      t.file == s.file || WriteFollows(s.file, t.file)
  {
    var programs, s := Behaviours(commands), SharedRun(init, commands, events);
    if LockProtocol.Next(programs, s, event).file != s.file {
      var k := LockProtocol.FileChanges(init, programs, events, event);
      NextWriteFollows(LockProtocol.Serial(init, programs, s.done), commands, event.pid, k);
    }
  }
}

/** Processes sharing one file under an exclusively created lock file. */
module LockProtocol {
  import opened Options

  type Pid = nat

  /** What a section does to the file it read: the successive contents it writes, and whether it succeeds. */
  datatype Section<T> = Section(writes: seq<T>, ok: bool)

  function Result<T>(base: T, e: Section<T>): T {
    if e.writes == [] then base else e.writes[|e.writes| - 1]
  }

  /** Where a process stands in its command: the lock is tried once, run.json is read, the writes are replaced one by
      one, the lock file is unlinked. `Gone` is a killed process, which unlinks nothing. */
  datatype Pc<T> = Trying | Reading | Writing(rest: seq<T>, ok: bool) | Unlinking(ok: bool) | Exited(ok: bool)
    | LockedOut | Gone

  datatype Sys<T> = Sys(file: T, lock: Option<Pid>, pcs: map<Pid, Pc<T>>, done: seq<Pid>)

  /** The section each process runs, as a function of the content it reads. */
  type Programs<!T> = map<Pid, T -> Section<T>>

  datatype Event = Turn(pid: Pid) | Kill(pid: Pid)

  function TakeTurn<T>(programs: Programs<T>, s: Sys<T>, p: Pid): Sys<T>
    requires p in s.pcs && p in programs
  {
    match s.pcs[p]
    case Trying =>
      if s.lock.None? then s.(lock := Some(p), pcs := s.pcs[p := Reading]) else s.(pcs := s.pcs[p := LockedOut])
    case Reading =>
      var e := programs[p](s.file);
      s.(pcs := s.pcs[p := Writing(e.writes, e.ok)])
    case Writing(rest, ok) =>
      if rest == [] then s.(pcs := s.pcs[p := Unlinking(ok)])
      else s.(file := rest[0], pcs := s.pcs[p := Writing(rest[1..], ok)])
    case Unlinking(ok) => s.(lock := None, pcs := s.pcs[p := Exited(ok)], done := s.done + [p])
    case _ => s
  }

  predicate Holding<T>(pc: Pc<T>) {
    pc.Reading? || pc.Writing? || pc.Unlinking?
  }

  function Next<T>(programs: Programs<T>, s: Sys<T>, event: Event): Sys<T> {
    if event.pid !in s.pcs || event.pid !in programs then s
    else if event.Turn? then TakeTurn(programs, s, event.pid)
    else if Holding(s.pcs[event.pid]) || s.pcs[event.pid].Trying? then s.(pcs := s.pcs[event.pid := Gone])
    else s
  }

  function Start<T>(init: T, programs: Programs<T>): Sys<T> {
    Sys(init, None, map p | p in programs :: Trying, [])
  }

  function Schedule<T>(programs: Programs<T>, s: Sys<T>, events: seq<Event>): Sys<T> {
    if events == [] then s else Next(programs, Schedule(programs, s, events[..|events| - 1]), events[|events| - 1])
  }

  /** The file after the given sections one after another. */
  function Serial<T>(init: T, programs: Programs<T>, pids: seq<Pid>): T
    requires forall k :: 0 <= k < |pids| ==> pids[k] in programs
  {
    if pids == [] then init
    else
      var base := Serial(init, programs, pids[..|pids| - 1]);
      Result(base, programs[pids[|pids| - 1]](base))
  }

  lemma SerialSnoc<T>(init: T, programs: Programs<T>, pids: seq<Pid>, p: Pid)
    requires forall k :: 0 <= k < |pids| ==> pids[k] in programs
    requires p in programs
    ensures Serial(init, programs, pids + [p]) ==
      Result(Serial(init, programs, pids), programs[p](Serial(init, programs, pids)))
  {
    assert (pids + [p])[..|pids|] == pids;
  }

  /** The file after the first k writes of an effect. */
  function AfterWrites<T>(base: T, e: Section<T>, k: nat): T
    requires k <= |e.writes|
  {
    if k == 0 then base else e.writes[k - 1]
  }

  function SectionEffect<T>(programs: Programs<T>, p: Pid, base: T): Section<T>
    requires p in programs
  {
    programs[p](base)
  }

  /** The holder works on the serial result of the finished sections and has replaced the file by a prefix of its
      writes. */
  ghost predicate InSection<T>(programs: Programs<T>, s: Sys<T>, p: Pid, base: T)
    requires p in programs && p in s.pcs
  {
    var e := SectionEffect(programs, p, base);
    match s.pcs[p]
    case Reading => s.file == base
    case Writing(rest, ok) =>
      ok == e.ok && |rest| <= |e.writes| && rest == e.writes[|e.writes| - |rest|..]
        && s.file == AfterWrites(base, e, |e.writes| - |rest|)
    case Unlinking(ok) => ok == e.ok && s.file == Result(base, e)
    case Gone => exists k :: 0 <= k <= |e.writes| && s.file == AfterWrites(base, e, k)
    case _ => false
  }

  /** The k-th finished section reported what it reports when run after the earlier ones. */
  ghost predicate Reported<T>(init: T, programs: Programs<T>, s: Sys<T>, k: nat)
    requires k < |s.done| && forall j :: 0 <= j < |s.done| ==> s.done[j] in programs && s.done[j] in s.pcs
  {
    s.pcs[s.done[k]] == Exited(SectionEffect(programs, s.done[k], Serial(init, programs, s.done[..k])).ok)
  }

  ghost predicate DoneWell<T>(init: T, programs: Programs<T>, s: Sys<T>) {
    && (forall k :: 0 <= k < |s.done| ==> s.done[k] in programs && s.done[k] in s.pcs)
    && (forall k {:trigger Reported(init, programs, s, k)} :: 0 <= k < |s.done| ==> Reported(init, programs, s, k))
  }

  /** Only the lock holder is inside; whoever exited is among the finished. */
  ghost predicate OneInside<T>(s: Sys<T>) {
    && (forall p :: p in s.pcs && Holding(s.pcs[p]) ==> s.lock == Some(p))
    && (forall p :: p in s.pcs && s.pcs[p].Exited? ==> p in s.done)
  }

  ghost predicate FileAsExpected<T>(init: T, programs: Programs<T>, s: Sys<T>)
    requires DoneWell(init, programs, s) && s.pcs.Keys == programs.Keys
  {
    var base := Serial(init, programs, s.done);
    if s.lock.None? then s.file == base else s.lock.value in s.pcs && InSection(programs, s, s.lock.value, base)
  }

  ghost predicate Exclusive<T>(init: T, programs: Programs<T>, s: Sys<T>) {
    s.pcs.Keys == programs.Keys && DoneWell(init, programs, s) && OneInside(s) && FileAsExpected(init, programs, s)
  }

  /** Moving a process that has not exited keeps the finished sections as they were. */
  lemma DoneWellKept<T>(init: T, programs: Programs<T>, s: Sys<T>, s': Sys<T>, p: Pid, pc: Pc<T>)
    requires DoneWell(init, programs, s) && p in s.pcs && !s.pcs[p].Exited?
    requires s'.done == s.done && s'.pcs == s.pcs[p := pc]
    ensures DoneWell(init, programs, s')
  {
    forall k | 0 <= k < |s'.done| ensures Reported(init, programs, s', k) {
      assert Reported(init, programs, s, k);
    }
  }

  lemma SectionStep<T>(programs: Programs<T>, s: Sys<T>, p: Pid, base: T)
    requires p in programs && p in s.pcs && InSection(programs, s, p, base) && (s.pcs[p].Reading? || s.pcs[p].Writing?)
    ensures InSection(programs, TakeTurn(programs, s, p), p, base)
  {
    var e := SectionEffect(programs, p, base);
    if s.pcs[p].Reading? {
      assert e.writes[0..] == e.writes;
    } else if s.pcs[p].rest != [] {
      var rest := s.pcs[p].rest;
      assert rest[0] == e.writes[|e.writes| - |rest|];
      assert rest[1..] == e.writes[|e.writes| - |rest| + 1..];
    }
  }

  lemma StepInside<T>(init: T, programs: Programs<T>, s: Sys<T>, p: Pid)
    requires Exclusive(init, programs, s) && p in s.pcs && (s.pcs[p].Reading? || s.pcs[p].Writing?)
    ensures Exclusive(init, programs, TakeTurn(programs, s, p))
  {
    var s' := TakeTurn(programs, s, p);
    DoneWellKept(init, programs, s, s', p, s'.pcs[p]);
    SectionStep(programs, s, p, Serial(init, programs, s.done));
  }

  /** The finished sections with the unlinking one added. */
  lemma UnlinkedDoneWell<T>(init: T, programs: Programs<T>, s: Sys<T>, s': Sys<T>, p: Pid, ok: bool)
    requires DoneWell(init, programs, s) && p in programs && p in s.pcs && !s.pcs[p].Exited?
    requires ok == SectionEffect(programs, p, Serial(init, programs, s.done)).ok
    requires s'.done == s.done + [p] && s'.pcs == s.pcs[p := Exited(ok)]
    ensures DoneWell(init, programs, s')
  {
    assert forall k :: 0 <= k < |s'.done| ==> s'.done[k] in programs && s'.done[k] in s'.pcs;
    forall k | 0 <= k < |s'.done| ensures Reported(init, programs, s', k) {
      if k < |s.done| {
        assert s'.done[..k] == s.done[..k];
        assert Reported(init, programs, s, k);
      } else {
        assert s'.done[..k] == s.done;
      }
    }
  }

  lemma UnlinkedOneInside<T>(s: Sys<T>, s': Sys<T>, p: Pid, ok: bool)
    requires OneInside(s) && p in s.pcs && s.pcs[p].Unlinking?
    requires s'.done == s.done + [p] && s'.pcs == s.pcs[p := Exited(ok)]
    ensures OneInside(s')
  {
    assert s'.done[|s.done|] == p;
    forall q | q in s'.pcs && s'.pcs[q].Exited? ensures q in s'.done {
      assert q in s.done || q == p;
    }
  }

  lemma StepUnlink<T>(init: T, programs: Programs<T>, s: Sys<T>, p: Pid)
    requires Exclusive(init, programs, s) && p in s.pcs && s.pcs[p].Unlinking?
    ensures Exclusive(init, programs, TakeTurn(programs, s, p))
  {
    var s' := TakeTurn(programs, s, p);
    SerialSnoc(init, programs, s.done, p);
    UnlinkedDoneWell(init, programs, s, s', p, s.pcs[p].ok);
    UnlinkedOneInside(s, s', p, s.pcs[p].ok);
  }

  lemma StepTrying<T>(init: T, programs: Programs<T>, s: Sys<T>, p: Pid)
    requires Exclusive(init, programs, s) && p in s.pcs && s.pcs[p].Trying?
    ensures Exclusive(init, programs, TakeTurn(programs, s, p))
  {
    var s' := TakeTurn(programs, s, p);
    DoneWellKept(init, programs, s, s', p, s'.pcs[p]);
  }

  lemma StepKilled<T>(init: T, programs: Programs<T>, s: Sys<T>, p: Pid)
    requires Exclusive(init, programs, s) && p in s.pcs && (Holding(s.pcs[p]) || s.pcs[p].Trying?)
    ensures Exclusive(init, programs, s.(pcs := s.pcs[p := Gone]))
  {
    DoneWellKept(init, programs, s, s.(pcs := s.pcs[p := Gone]), p, Gone);
    if Holding(s.pcs[p]) {
      HolderPrefix(programs, s, p, Serial(init, programs, s.done));
    }
  }

  /** Wherever the holder stands, the file shows a prefix of its writes. */
  lemma HolderPrefix<T>(programs: Programs<T>, s: Sys<T>, p: Pid, base: T)
    requires p in programs && p in s.pcs && InSection(programs, s, p, base)
    ensures var e := SectionEffect(programs, p, base);
      exists k :: 0 <= k <= |e.writes| && s.file == AfterWrites(base, e, k)
  {
    if !s.pcs[p].Gone? {
      var e := SectionEffect(programs, p, base);
      var k := match s.pcs[p] case Reading => 0 case Writing(rest, _) => |e.writes| - |rest| case _ => |e.writes|;
      assert s.file == AfterWrites(base, e, k);
    }
  }

  lemma {:induction false} AlwaysExclusive<T>(init: T, programs: Programs<T>, events: seq<Event>)
    ensures Exclusive(init, programs, Schedule(programs, Start(init, programs), events))
  {
    var s0 := Start(init, programs);
    if events != [] {
      var s, event := Schedule(programs, s0, events[..|events| - 1]), events[|events| - 1];
      AlwaysExclusive(init, programs, events[..|events| - 1]);
      if event.pid in s.pcs {
        var pc := s.pcs[event.pid];
        if event.Turn? && (pc.Reading? || pc.Writing?) {
          StepInside(init, programs, s, event.pid);
        } else if event.Turn? && pc.Unlinking? {
          StepUnlink(init, programs, s, event.pid);
        } else if event.Turn? && pc.Trying? {
          StepTrying(init, programs, s, event.pid);
        } else if event.Kill? && (Holding(pc) || pc.Trying?) {
          StepKilled(init, programs, s, event.pid);
        }
      }
    }
  }

  /** The file goes from p's first k writes to the next one. */
  ghost predicate WritesNext<T>(init: T, programs: Programs<T>, s: Sys<T>, t: Sys<T>, p: Pid, k: nat)
    requires DoneWell(init, programs, s)
  {
    && p in programs
    && var base := Serial(init, programs, s.done);
       var e := SectionEffect(programs, p, base);
       k < |e.writes| && s.file == AfterWrites(base, e, k) && t.file == e.writes[k]
  }

  /** A turn that changes the file is the holder's next write on top of the finished sections. */
  lemma FileChanges<T>(init: T, programs: Programs<T>, events: seq<Event>, event: Event) returns (k: nat)
    requires var s := Schedule(programs, Start(init, programs), events); Next(programs, s, event).file != s.file
    ensures var s := Schedule(programs, Start(init, programs), events);
      DoneWell(init, programs, s) && WritesNext(init, programs, s, Next(programs, s, event), event.pid, k)
  {
    AlwaysExclusive(init, programs, events);
    var s := Schedule(programs, Start(init, programs), events);
    var e := SectionEffect(programs, event.pid, Serial(init, programs, s.done));
    k := |e.writes| - |s.pcs[event.pid].rest|;
  }

  /** The file shows a prefix of the lock holder's writes on top of the finished sections. */
  ghost predicate PartlyWritten<T>(init: T, programs: Programs<T>, s: Sys<T>)
    requires DoneWell(init, programs, s) && s.lock.Some?
  {
    && s.lock.value in programs
    && var base := Serial(init, programs, s.done);
       var e := SectionEffect(programs, s.lock.value, base);
       exists k :: 0 <= k <= |e.writes| && s.file == AfterWrites(base, e, k)
  }

  /** Under every interleaving, kills included, the run file is what the finished sections produce one after another,
      plus a prefix of the holder's own writes on top; every finished process reports what its command reports in that
      serial order, and every process that reports anything is in it. */
  lemma InterleavingIsSerial<T>(init: T, programs: Programs<T>, events: seq<Event>)
    ensures var s := Schedule(programs, Start(init, programs), events);
      && DoneWell(init, programs, s)
      && (forall p :: p in s.pcs && s.pcs[p].Exited? ==> p in s.done)
      && (s.lock.None? ==> s.file == Serial(init, programs, s.done))
      && (s.lock.Some? ==> PartlyWritten(init, programs, s))
  {
    AlwaysExclusive(init, programs, events);
    var s := Schedule(programs, Start(init, programs), events);
    if s.lock.Some? {
      HolderPrefix(programs, s, s.lock.value, Serial(init, programs, s.done));
    }
  }

  /** No two processes are ever inside their sections together. */
  lemma MutualExclusion<T>(init: T, programs: Programs<T>, events: seq<Event>, p: Pid, q: Pid)
    requires var s := Schedule(programs, Start(init, programs), events);
             p in s.pcs && q in s.pcs && Holding(s.pcs[p]) && Holding(s.pcs[q])
    ensures p == q
  {
    AlwaysExclusive(init, programs, events);
  }

  /** A process killed inside its section leaves the lock file behind: from then on the run file never changes. */
  lemma {:induction false} StaleLockFreezes<T>(programs: Programs<T>, s: Sys<T>, events: seq<Event>)
    requires s.lock.Some? && s.lock.value in s.pcs && s.pcs[s.lock.value].Gone?
    requires forall p :: p in s.pcs ==> !Holding(s.pcs[p])
    ensures var t := Schedule(programs, s, events);
      && t.file == s.file && t.lock == s.lock && t.lock.value in t.pcs && t.pcs[t.lock.value].Gone?
      && t.done == s.done && forall p :: p in t.pcs ==> !Holding(t.pcs[p])
  {
    if events != [] {
      StaleLockFreezes(programs, s, events[..|events| - 1]);
    }
  }

  lemma {:induction false} ScheduleCons<T>(programs: Programs<T>, s: Sys<T>, first: Event, more: seq<Event>)
    ensures Schedule(programs, s, [first] + more) == Schedule(programs, Next(programs, s, first), more)
  {
    var all := [first] + more;
    if more == [] {
      assert all[..0] == [];
    } else {
      assert all[..|all| - 1] == [first] + more[..|more| - 1];
      ScheduleCons(programs, s, first, more[..|more| - 1]);
    }
  }

  /** How far the holder is from dropping the lock. */
  function Stage<T>(pc: Pc<T>): nat {
    match pc case Reading => 2 case Writing(_, _) => 1 case _ => 0
  }

  function ToWrite<T>(pc: Pc<T>): nat {
    if pc.Writing? then |pc.rest| else 0
  }

  /** Left alone, a live holder finishes its section by its own turns. */
  lemma HolderFinishes<T>(programs: Programs<T>, s: Sys<T>, p: Pid) returns (turns: seq<Event>)
    requires p in programs && p in s.pcs && s.lock == Some(p) && Holding(s.pcs[p])
    ensures forall k :: 0 <= k < |turns| ==> turns[k] == Turn(p)
    ensures Schedule(programs, s, turns).lock.None?
    decreases Stage(s.pcs[p]), ToWrite(s.pcs[p])
  {
    var s' := Next(programs, s, Turn(p));
    if s.pcs[p].Unlinking? {
      turns := [Turn(p)];
      assert turns[..0] == [];
    } else {
      var rest := HolderFinishes(programs, s', p);
      turns := [Turn(p)] + rest;
      ScheduleCons(programs, s, Turn(p), rest);
    }
  }

  /** What the file will hold when the process inside its section is done. */
  function Remaining<T>(programs: Programs<T>, s: Sys<T>, p: Pid): Section<T>
    requires p in programs && p in s.pcs && Holding(s.pcs[p])
  {
    match s.pcs[p]
    case Reading => programs[p](s.file)
    case Writing(rest, ok) => Section(rest, ok)
    case Unlinking(ok) => Section([], ok)
  }

  /** By its own turns alone a process inside its section makes the rest of its writes, frees the lock and reports. */
  lemma HolderCompletes<T>(programs: Programs<T>, s: Sys<T>, p: Pid) returns (turns: seq<Event>)
    requires p in programs && p in s.pcs && s.lock == Some(p) && Holding(s.pcs[p])
    ensures forall k :: 0 <= k < |turns| ==> turns[k] == Turn(p)
    ensures var t, e := Schedule(programs, s, turns), Remaining(programs, s, p);
      && t.lock.None? && t.file == Result(s.file, e) && t.done == s.done + [p] && t.pcs == s.pcs[p := Exited(e.ok)]
    decreases Stage(s.pcs[p]), ToWrite(s.pcs[p])
  {
    var s' := Next(programs, s, Turn(p));
    if s.pcs[p].Unlinking? {
      turns := [Turn(p)];
      assert turns[..0] == [];
    } else {
      var rest := HolderCompletes(programs, s', p);
      turns := [Turn(p)] + rest;
      ScheduleCons(programs, s, Turn(p), rest);
    }
  }

  /** A process that finds the lock free gets it, and by its own turns runs its whole section on the file as it is; one
      that finds it taken gives up and changes nothing else. */
  lemma TryingRuns<T>(programs: Programs<T>, s: Sys<T>, p: Pid) returns (turns: seq<Event>)
    requires p in programs && p in s.pcs && s.pcs[p].Trying?
    ensures forall k :: 0 <= k < |turns| ==> turns[k] == Turn(p)
    ensures var t := Schedule(programs, s, turns);
      if s.lock.None? then
        && t.lock.None? && t.file == Result(s.file, programs[p](s.file)) && t.done == s.done + [p]
        && t.pcs == s.pcs[p := Exited(programs[p](s.file).ok)]
      else t == s.(pcs := s.pcs[p := LockedOut])
  {
    var s' := Next(programs, s, Turn(p));
    if s.lock.None? {
      var rest := HolderCompletes(programs, s', p);
      turns := [Turn(p)] + rest;
      ScheduleCons(programs, s, Turn(p), rest);
    } else {
      turns := [Turn(p)];
      assert turns[..0] == [];
    }
  }

  /** Some continuation frees the lock. */
  ghost predicate CanBeFreed<T(!new)>(programs: Programs<T>, s: Sys<T>) {
    exists more :: Schedule(programs, s, more).lock.None?
  }

  /** No continuation changes the file, the lock or the list of finished sections. */
  ghost predicate Frozen<T(!new)>(programs: Programs<T>, s: Sys<T>) {
    forall more :: Unchanged(s, Schedule(programs, s, more))
  }

  predicate Unchanged<T(==)>(s: Sys<T>, t: Sys<T>) {
    t.file == s.file && t.lock == s.lock && t.done == s.done
  }

  /** In every reachable state with the lock taken: the lock can come free again exactly when its holder was not
      killed, and otherwise everything is frozen for good. */
  lemma LockIsStaleIff<T(!new)>(init: T, programs: Programs<T>, events: seq<Event>)
    requires Schedule(programs, Start(init, programs), events).lock.Some?
    ensures var s := Schedule(programs, Start(init, programs), events);
      && s.lock.value in s.pcs
      && (CanBeFreed(programs, s) <==> !s.pcs[s.lock.value].Gone?)
      && (Frozen(programs, s) <==> s.pcs[s.lock.value].Gone?)
  {
    AlwaysExclusive(init, programs, events);
    var s := Schedule(programs, Start(init, programs), events);
    var p := s.lock.value;
    if s.pcs[p].Gone? {
      forall more ensures Unchanged(s, Schedule(programs, s, more)) {
        StaleLockFreezes(programs, s, more);
      }
      assert forall more :: Unchanged(s, Schedule(programs, s, more)) ==> Schedule(programs, s, more).lock.Some?;
    } else {
      var turns := HolderFinishes(programs, s, p);
      assert Schedule(programs, s, turns).lock.None?;
      assert !Unchanged(s, Schedule(programs, s, turns));
    }
  }
}

/** What a callback of Config::Visit may do. It runs under the registry's read
    lock; the calls it can make without bringing threads to a standstill depend on
    whether a read-write lock lets a reader in while a writer waits. */
module VisitCallbacks {
  import opened LockOrder
  import opened LockRuns
  import opened Options

  /** The calls of all the callbacks of one Visit, one after the other. */
  function CallsBlocks(cs: seq<Call>): seq<Block> {
    if cs == [] then [] else Blocks(cs[0]) + CallsBlocks(cs[1..])
  }

  function VisitCalling(cs: seq<Call>): seq<Block> {
    [Region(Registry, Shared, [Read(Variables)] + CallsBlocks(cs))]
  }

  /** A call of the library, or the Visit in question. */
  function JobBlocks(cs: seq<Call>, job: Option<Call>): seq<Block> {
    if job.None? then VisitCalling(cs) else Blocks(job.value)
  }

  function JobProgram(cs: seq<Call>, jobs: seq<Option<Call>>): seq<Instr> {
    if jobs == [] then [] else Trace(JobBlocks(cs, jobs[0])) + JobProgram(cs, jobs[1..])
  }

  function StartJobs(cs: seq<Call>, programs: seq<seq<Option<Call>>>): seq<Thread> {
    seq(|programs|, i requires 0 <= i < |programs| => Thread([], JobProgram(cs, programs[i])))
  }

  /** Somebody can go on, or everybody has finished. */
  ghost predicate Moving(s: seq<Thread>, writersFirst: bool) {
    (exists i: nat :: i < |s| && s[i].rest != []) ==>
      exists k: nat :: k < |s| && if writersFirst then MustStep(s, k) else CanStep(s, k)
  }

  /** However many threads make the Visit and any other calls, in any order, they
      never come to a standstill: with locks that make readers wait for waiting
      writers, or with locks that do not. */
  ghost predicate Safe(cs: seq<Call>, writersFirst: bool) {
    forall programs, run | ValidRun(StartJobs(cs, programs), run) ::
        Moving(After(StartJobs(cs, programs), run), writersFirst)
  }

  // ---------- Callbacks that stay away from the registry ----------

  lemma {:induction false} CallsSound(cs: seq<Call>, held: seq<Held>)
    requires Below(held, 1) && forall c | c in cs :: !TakesRegistry(c)
    ensures Sound(CallsBlocks(cs), held)
  {
    hide Blocks, TakesRegistry, Sound;
    if cs == [] {
      SoundNil(held);
    } else {
      CallSoundUnder(cs[0], held);
      CallsSound(cs[1..], held);
      Concat(Blocks(cs[0]), CallsBlocks(cs[1..]), held);
    }
  }

  lemma {:induction false} JobsDisciplined(cs: seq<Call>, jobs: seq<Option<Call>>)
    requires forall c | c in cs :: !TakesRegistry(c)
    ensures Disciplined([], JobProgram(cs, jobs))
  {
    hide Trace, Blocks, Disciplined, Sound, TakesRegistry, CallsBlocks;
    if jobs == [] {
      assert Disciplined([], []) by { NothingLeft(); }
    } else {
      JobsDisciplined(cs, jobs[1..]);
      if jobs[0].None? {
        CallsSound(cs, [Held(Registry, Shared)]);
        RegistrySound(Shared, CallsBlocks(cs));
      } else {
        CallSound(jobs[0].value);
      }
      TraceDisciplined(JobBlocks(cs, jobs[0]), [], JobProgram(cs, jobs[1..]));
    }
  }

  lemma NothingLeft()
    ensures Disciplined([], [])
  {
  }

  lemma AwayIsSafe(cs: seq<Call>)
    requires forall c | c in cs :: !TakesRegistry(c)
    ensures Safe(cs, true)
  {
    hide TakesRegistry, JobProgram;
    forall programs, run | ValidRun(StartJobs(cs, programs), run)
      ensures Moving(After(StartJobs(cs, programs), run), true)
    {
      var s := StartJobs(cs, programs);
      forall i | 0 <= i < |programs| ensures Disciplined([], JobProgram(cs, programs[i])) {
        JobsDisciplined(cs, programs[i]);
      }
      RunOk(s, run);
      if i: nat :| i < |After(s, run)| && After(s, run)[i].rest != [] {
        Progress(After(s, run), i);
      }
    }
  }

  // ---------- Taking the registry again to read ----------

  /** Above all locks held, or once more to read what is only held to be read. */
  ghost predicate MayTake(held: seq<Held>, l: Lock, m: Mode) {
    Below(held, Rank(l)) || (m == Shared && forall h | h in held && Rank(h.lock) >= Rank(l) :: h == Held(l, Shared))
  }

  ghost predicate Passable(bs: seq<Block>, held: seq<Held>)
    decreases bs
  {
    forall i | 0 <= i < |bs| ::
      match bs[i]
      case Region(l, m, body) => MayTake(held, l, m) && Passable(body, held + [Held(l, m)])
      case Use(_, _) => true
  }

  lemma {:induction false} SoundPasses(bs: seq<Block>, held: seq<Held>)
    requires Sound(bs, held)
    ensures Passable(bs, held)
    decreases bs
  {
    forall i | 0 <= i < |bs|
      ensures match bs[i]
              case Region(l, m, body) => MayTake(held, l, m) && Passable(body, held + [Held(l, m)])
              case Use(_, _) => true
    {
      if bs[i].Region? {
        SoundPasses(bs[i].body, held + [Held(bs[i].lock, bs[i].mode)]);
      }
    }
  }

  lemma PassConcat(a: seq<Block>, b: seq<Block>, held: seq<Held>)
    requires Passable(a, held) && Passable(b, held)
    ensures Passable(a + b, held)
  {
  }

  lemma {:induction false} PassJoin(parts: seq<seq<Block>>, held: seq<Held>)
    requires forall i | 0 <= i < |parts| :: Passable(parts[i], held)
    ensures Passable(Join(parts), held)
  {
    hide Passable;
    if parts == [] {
      PassNil(held);
    } else {
      PassJoin(parts[1..], held);
      PassConcat(parts[0], Join(parts[1..]), held);
    }
  }

  lemma PassNil(held: seq<Held>)
    ensures Passable([], held)
  {
  }

  lemma PassAgain(body: seq<Block>)
    requires Sound(body, [Held(Registry, Shared), Held(Registry, Shared)])
    ensures Passable([Region(Registry, Shared, body)], [Held(Registry, Shared)])
  {
    var held := [Held(Registry, Shared)];
    assert held + [Held(Registry, Shared)] == [Held(Registry, Shared), Held(Registry, Shared)];
    SoundPasses(body, held + [Held(Registry, Shared)]);
  }

  lemma LookupBasePasses()
    ensures Passable(LookupBase(), [Held(Registry, Shared)])
  {
    var twice := [Held(Registry, Shared), Held(Registry, Shared)];
    assert twice[0] in twice;
    assert Sound([Read(Variables)], twice);
    PassAgain([Read(Variables)]);
  }

  /** Every call but the creating Lookup can be made by a callback without asking
      for more than the callback's thread may have. */
  lemma CallPasses(c: Call)
    requires !c.CallLookup?
    ensures Passable(Blocks(c), [Held(Registry, Shared)])
  {
    hide Passable, Sound, LookupBase, RootLogs, Visits, ToString, GetValue, SetValue, AddListener, DropListeners,
         GetListener, OnLoggers, Assign;
    var held := [Held(Registry, Shared)];
    if !TakesRegistry(c) {
      CallSoundUnder(c, held);
      SoundPasses(Blocks(c), held);
    } else {
      match c
      case CallLookupBase => LookupBasePasses();
      case CallVisit(visited) =>
        var twice := [Held(Registry, Shared), Held(Registry, Shared)];
        VisitsSound(visited, twice);
        ReadTwice();
        Concat([Read(Variables)], Visits(visited), twice);
        PassAgain([Read(Variables)] + Visits(visited));
      case CallLoadFromYaml(bad, assignments) =>
        RootLogsSound(bad, held);
        SoundPasses(RootLogs(bad), held);
        forall i | 0 <= i < |assignments| ensures Passable(Assign(assignments[i]), held) {
          AssignPasses(assignments[i]);
        }
        PassJoin(seq(|assignments|, i requires 0 <= i < |assignments| => Assign(assignments[i])), held);
        PassConcat(RootLogs(bad), AssignAll(assignments), held);
    }
  }

  lemma ReadTwice()
    ensures Sound([Read(Variables)], [Held(Registry, Shared), Held(Registry, Shared)])
  {
    var twice := [Held(Registry, Shared), Held(Registry, Shared)];
    assert twice[0] in twice;
  }

  lemma AssignPasses(a: Assignment)
    ensures Passable(Assign(a), [Held(Registry, Shared)])
  {
    hide Passable, Sound, LookupBase, RootLog, SetValue;
    var held := [Held(Registry, Shared)];
    LookupBasePasses();
    PassNil(held);
    match a
    case Unknown => PassConcat(LookupBase(), [], held);
    case Unparsed(report) =>
      RootLogSound(report, held);
      SoundPasses(RootLog(report), held);
      PassConcat(LookupBase(), RootLog(report), held);
    case Assigned(v, changes) =>
      SetValueSound(v, changes, held);
      SoundPasses(SetValue(v, changes), held);
      PassConcat(LookupBase(), SetValue(v, changes), held);
  }

  lemma {:induction false} CallsPass(cs: seq<Call>)
    requires forall c | c in cs :: !c.CallLookup?
    ensures Passable(CallsBlocks(cs), [Held(Registry, Shared)])
  {
    hide Passable, Blocks;
    if cs == [] {
      PassNil([Held(Registry, Shared)]);
    } else {
      CallPasses(cs[0]);
      CallsPass(cs[1..]);
      PassConcat(Blocks(cs[0]), CallsBlocks(cs[1..]), [Held(Registry, Shared)]);
    }
  }

  /** As the discipline of the library's own calls, but for locks taken again. */
  ghost predicate Orderly(held: seq<Held>, rest: seq<Instr>)
    decreases |rest|
  {
    if rest == [] then held == []
    else match rest[0]
      case Acquire(l, m) => MayTake(held, l, m) && Orderly(held + [Held(l, m)], rest[1..])
      case Release(l) =>
        && held != [] && held[|held| - 1].lock == l
        && Orderly(held[..|held| - 1], rest[1..])
      case Access(_, _) => Orderly(held, rest[1..])
  }

  lemma EnterOrderly(l: Lock, m: Mode, held: seq<Held>, rest: seq<Instr>)
    requires MayTake(held, l, m) && Orderly(held + [Held(l, m)], rest)
    ensures Orderly(held, [Acquire(l, m)] + rest)
  {
    assert ([Acquire(l, m)] + rest)[1..] == rest;
  }

  lemma LeaveOrderly(l: Lock, m: Mode, held: seq<Held>, rest: seq<Instr>)
    requires Orderly(held, rest)
    ensures Orderly(held + [Held(l, m)], [Release(l)] + rest)
  {
    assert ([Release(l)] + rest)[1..] == rest;
    assert (held + [Held(l, m)])[..|held + [Held(l, m)]| - 1] == held;
  }

  lemma UseOrderly(d: Datum, w: bool, held: seq<Held>, rest: seq<Instr>)
    requires Orderly(held, rest)
    ensures Orderly(held, [Access(d, w)] + rest)
  {
    assert ([Access(d, w)] + rest)[1..] == rest;
  }

  lemma {:induction false} TraceOrderly(bs: seq<Block>, held: seq<Held>, rest: seq<Instr>)
    requires Passable(bs, held) && Orderly(held, rest)
    ensures Orderly(held, Trace(bs) + rest)
    decreases bs
  {
    hide Orderly, MayTake;
    if bs == [] {
      assert Trace(bs) + rest == rest;
    } else {
      hide Trace;
      var tail := Trace(bs[1..]) + rest;
      TraceOrderly(bs[1..], held, rest);
      TraceFirst(bs, rest);
      match bs[0]
      case Region(l, m, body) =>
        LeaveOrderly(l, m, held, tail);
        TraceOrderly(body, held + [Held(l, m)], [Release(l)] + tail);
        EnterOrderly(l, m, held, Trace(body) + ([Release(l)] + tail));
      case Use(d, w) => UseOrderly(d, w, held, tail);
    }
  }

  lemma VisitPasses(cs: seq<Call>)
    requires forall c | c in cs :: !c.CallLookup?
    ensures Passable(VisitCalling(cs), [])
  {
    hide CallsBlocks;
    CallsPass(cs);
    assert [] + [Held(Registry, Shared)] == [Held(Registry, Shared)];
    PassConcat([Read(Variables)], CallsBlocks(cs), [Held(Registry, Shared)]);
  }

  lemma {:induction false} JobsOrderly(cs: seq<Call>, jobs: seq<Option<Call>>)
    requires forall c | c in cs :: !c.CallLookup?
    ensures Orderly([], JobProgram(cs, jobs))
  {
    hide Trace, Blocks, Orderly, Sound, Passable, VisitCalling;
    if jobs == [] {
      assert Orderly([], []) by { NothingOrderly(); }
    } else {
      JobsOrderly(cs, jobs[1..]);
      if jobs[0].None? {
        VisitPasses(cs);
      } else {
        CallSound(jobs[0].value);
        SoundPasses(Blocks(jobs[0].value), []);
      }
      TraceOrderly(JobBlocks(cs, jobs[0]), [], JobProgram(cs, jobs[1..]));
    }
  }

  lemma NothingOrderly()
    ensures Orderly([], [])
  {
  }

  ghost predicate OrderlySystem(s: seq<Thread>) {
    && (forall i | 0 <= i < |s| :: Orderly(s[i].held, s[i].rest))
    && (forall i, j | 0 <= i < j < |s| :: Excludes(s[i], s[j]))
  }

  lemma OrderlyStep(s: seq<Thread>, i: nat)
    requires OrderlySystem(s) && i < |s| && CanStep(s, i)
    ensures OrderlySystem(Stepped(s, i))
  {
    var t := StepThread(s[i]);
    assert Orderly(t.held, t.rest);
    forall j | 0 <= j < |s| && j != i ensures Excludes(t, s[j]) && Excludes(s[j], t) {
      assert if i < j then Excludes(s[i], s[j]) else Excludes(s[j], s[i]);
    }
  }

  lemma {:induction false} OrderlyRun(s: seq<Thread>, run: seq<nat>)
    requires OrderlySystem(s) && ValidRun(s, run)
    ensures OrderlySystem(After(s, run))
    decreases |run|
  {
    hide OrderlySystem, CanStep, StepThread;
    if run == [] {
    } else {
      CanStepHasWork(s, run[0]);
      OrderlyStep(s, run[0]);
      OrderlyRun(Stepped(s, run[0]), run[1..]);
    }
  }

  /** A thread that has to wait has to wait for another one, and for a lock above
      all its own. */
  lemma WaitsAbove(s: seq<Thread>, i: nat)
    returns (j: nat)
    requires OrderlySystem(s) && i < |s| && s[i].rest != [] && !CanStep(s, i)
    ensures s[i].rest[0].Acquire? && Below(s[i].held, Rank(s[i].rest[0].lock))
    ensures j < |s| && s[j].rest != [] && exists h :: h in s[j].held && h.lock == s[i].rest[0].lock
  {
    var l, m := s[i].rest[0].lock, s[i].rest[0].mode;
    AboveOrAgain(s[i].held, l, m);
    var h;
    j, h :| 0 <= j < |s| && h in s[j].held && h.lock == l && !(h.mode == m == Shared);
    assert i < j ==> Excludes(s[i], s[j]);
    assert j < i ==> Excludes(s[j], s[i]);
  }

  lemma AboveOrAgain(held: seq<Held>, l: Lock, m: Mode)
    requires MayTake(held, l, m)
    ensures Below(held, Rank(l))
         || (m == Shared && Held(l, Shared) in held && forall h | h in held && h.lock == l :: h.mode == Shared)
  {
  }

  lemma {:induction false} OrderlyProgress(s: seq<Thread>, i: nat)
    requires OrderlySystem(s) && i < |s| && s[i].rest != []
    ensures exists k: nat :: k < |s| && CanStep(s, k)
    decreases if s[i].rest[0].Acquire? then 6 - Rank(s[i].rest[0].lock) else 0
  {
    if !CanStep(s, i) {
      var j := WaitsAbove(s, i);
      if !CanStep(s, j) {
        var more := WaitsAbove(s, j);
        OrderlyProgress(s, j);
      }
    }
  }

  lemma ReadersAreSafe(cs: seq<Call>)
    requires forall c | c in cs :: !c.CallLookup?
    ensures Safe(cs, false)
  {
    hide JobProgram;
    forall programs, run | ValidRun(StartJobs(cs, programs), run)
      ensures Moving(After(StartJobs(cs, programs), run), false)
    {
      var s := StartJobs(cs, programs);
      forall i | 0 <= i < |programs| ensures Orderly([], JobProgram(cs, programs[i])) {
        JobsOrderly(cs, programs[i]);
      }
      OrderlyRun(s, run);
      if i: nat :| i < |After(s, run)| && After(s, run)[i].rest != [] {
        OrderlyProgress(After(s, run), i);
      }
    }
  }

  // ---------- The way to a standstill ----------

  lemma {:induction false} RunThen(s: seq<Thread>, a: seq<nat>, b: seq<nat>)
    requires ValidRun(s, a) && ValidRun(After(s, a), b)
    ensures ValidRun(s, a + b) && After(s, a + b) == After(After(s, a), b)
    decreases |a|
  {
    hide CanStep, StepThread;
    if a == [] {
      assert a + b == b;
    } else {
      CanStepHasWork(s, a[0]);
      assert (a + b)[1..] == a[1..] + b;
      RunThen(Stepped(s, a[0]), a[1..], b);
    }
  }

  lemma OneStep(s: seq<Thread>, i: nat, t: Thread)
    requires i < |s| && CanStep(s, i) && t == StepThread(s[i])
    ensures ValidRun(s, [i]) && After(s, [i]) == s[i := t]
  {
    assert [i][1..] == [];
    assert ValidRun(Stepped(s, i), []);
  }

  ghost predicate Alone(s: seq<Thread>, i: nat) {
    i < |s| && forall j | 0 <= j < |s| && j != i :: s[j].held == []
  }

  lemma EnterAlone(s: seq<Thread>, i: nat, l: Lock, m: Mode, rest: seq<Instr>)
    requires Alone(s, i) && s[i].rest == [Acquire(l, m)] + rest && MayTake(s[i].held, l, m)
    ensures ValidRun(s, [i]) && After(s, [i]) == s[i := Thread(s[i].held + [Held(l, m)], rest)]
  {
    assert s[i].rest[1..] == rest;
    OneStep(s, i, Thread(s[i].held + [Held(l, m)], rest));
  }

  lemma GoOnAlone(s: seq<Thread>, i: nat, x: Instr, held: seq<Held>, rest: seq<Instr>)
    requires i < |s| && s[i].rest == [x] + rest
    requires match x {
               case Acquire(_, _) => false
               case Release(_) => s[i].held != [] && held == s[i].held[..|s[i].held| - 1]
               case Access(_, _) => held == s[i].held
             }
    ensures ValidRun(s, [i]) && After(s, [i]) == s[i := Thread(held, rest)]
  {
    assert s[i].rest[1..] == rest;
    OneStep(s, i, Thread(held, rest));
  }

  /** Where no other thread holds anything, a thread gets through passable blocks. */
  lemma {:induction false} RunAlone(s: seq<Thread>, i: nat, bs: seq<Block>, held: seq<Held>, rest: seq<Instr>)
    returns (run: seq<nat>)
    requires Alone(s, i) && s[i] == Thread(held, Trace(bs) + rest) && Passable(bs, held)
    ensures ValidRun(s, run) && After(s, run) == s[i := Thread(held, rest)]
    decreases bs
  {
    hide Trace, MayTake, ValidRun, After;
    if bs == [] {
      NoTrace(rest);
      EmptyRun(s);
      run := [];
    } else {
      TraceFirst(bs, rest);
      var tail := Trace(bs[1..]) + rest;
      match bs[0]
      case Use(d, w) =>
        GoOnAlone(s, i, Access(d, w), held, tail);
        var s1 := s[i := Thread(held, tail)];
        var more := RunAlone(s1, i, bs[1..], held, rest);
        RunThen(s, [i], more);
        run := [i] + more;
      case Region(l, m, body) =>
        var inside := held + [Held(l, m)];
        var closing := [Release(l)] + tail;
        EnterAlone(s, i, l, m, Trace(body) + closing);
        var s1 := s[i := Thread(inside, Trace(body) + closing)];
        var first := RunAlone(s1, i, body, inside, closing);
        var s2 := s1[i := Thread(inside, closing)];
        assert inside[..|inside| - 1] == held;
        GoOnAlone(s2, i, Release(l), held, tail);
        var s3 := s2[i := Thread(held, tail)];
        var more := RunAlone(s3, i, bs[1..], held, rest);
        RunThen(s, [i], first);
        RunThen(s, [i] + first, [i]);
        RunThen(s, [i] + first + [i], more);
        run := [i] + first + [i] + more;
    }
  }

  lemma NoTrace(rest: seq<Instr>)
    ensures Trace([]) + rest == rest
  {
    assert Trace([]) == [];
  }

  lemma EmptyRun(s: seq<Thread>)
    ensures ValidRun(s, []) && After(s, []) == s
  {
  }

  /** Where a call first takes the registry's lock: before that it does only what
      a thread holding it may do. */
  lemma FirstTaking(c: Call)
    returns (before: seq<Block>, m: Mode, body: seq<Block>, rest: seq<Block>)
    requires TakesRegistry(c)
    ensures Blocks(c) == before + ([Region(Registry, m, body)] + rest)
    ensures Passable(before, [Held(Registry, Shared)])
    ensures c.CallLookup? ==> m == Exclusive
  {
    hide RootLogs, Visits, Passable, Sound, Assign;
    PassNil([Held(Registry, Shared)]);
    match c
    case CallLookup(found) =>
      before, m, body, rest := [], Exclusive, [Read(Variables)] + InLookup(found), [];
    case CallLookupBase =>
      before, m, body, rest := [], Shared, [Read(Variables)], [];
    case CallVisit(visited) =>
      before, m, body, rest := [], Shared, [Read(Variables)] + Visits(visited), [];
    case CallLoadFromYaml(bad, assignments) =>
      RootLogsSound(bad, [Held(Registry, Shared)]);
      SoundPasses(RootLogs(bad), [Held(Registry, Shared)]);
      var more := FirstAssignment(assignments);
      before, m, body, rest := RootLogs(bad), Shared, [Read(Variables)], more;
  }

  lemma FirstAssignment(assignments: seq<Assignment>)
    returns (rest: seq<Block>)
    requires assignments != []
    ensures AssignAll(assignments) == [Region(Registry, Shared, [Read(Variables)])] + rest
  {
    hide LookupBase, RootLog, SetValue;
    var parts := seq(|assignments|, i requires 0 <= i < |assignments| => Assign(assignments[i]));
    assert Join(parts) == Assign(assignments[0]) + Join(parts[1..]);
    var own := AfterLookup(assignments[0]);
    rest := own + Join(parts[1..]);
  }

  lemma AfterLookup(a: Assignment)
    returns (own: seq<Block>)
    ensures Assign(a) == [Region(Registry, Shared, [Read(Variables)])] + own
  {
    hide RootLog, SetValue;
    own := match a
      case Unknown => []
      case Unparsed(report) => RootLog(report)
      case Assigned(v, changes) => SetValue(v, changes);
  }

  lemma {:induction false} CallsSplit(a: seq<Call>, b: seq<Call>)
    ensures CallsBlocks(a + b) == CallsBlocks(a) + CallsBlocks(b)
  {
    if a == [] {
      assert a + b == b;
    } else {
      assert (a + b)[1..] == a[1..] + b;
      CallsSplit(a[1..], b);
    }
  }

  lemma {:induction false} TraceSplit(a: seq<Block>, b: seq<Block>)
    ensures Trace(a + b) == Trace(a) + Trace(b)
    decreases |a|
  {
    if a == [] {
      assert a + b == b;
    } else {
      hide Trace;
      assert (a + b)[1..] == a[1..] + b && (a + b)[0] == a[0];
      TraceSplit(a[1..], b);
      TraceFirst(a + b, []);
      TraceFirst(a, []);
      TraceHead(a[0], Trace(a[1..]), Trace(b));
    }
  }

  lemma TraceHead(first: Block, a: seq<Instr>, b: seq<Instr>)
    ensures match first {
              case Region(l, m, body) =>
                [Acquire(l, m)] + (Trace(body) + ([Release(l)] + (a + b + [])))
                == [Acquire(l, m)] + (Trace(body) + ([Release(l)] + (a + []))) + b
              case Use(d, w) => [Access(d, w)] + (a + b + []) == [Access(d, w)] + (a + []) + b
            }
  {
  }

  /** The Visit gets, undisturbed, to where its `n`-th call first takes the
      registry's lock a second time. */
  lemma ReachTaking(cs: seq<Call>, n: nat, s: seq<Thread>)
    returns (m: Mode, run: seq<nat>)
    requires n < |cs| && TakesRegistry(cs[n]) && Passable(CallsBlocks(cs[..n]), [Held(Registry, Shared)])
    requires Alone(s, 0) && s[0] == Thread([], Trace(VisitCalling(cs)))
    ensures ValidRun(s, run) && |After(s, run)| == |s|
    ensures Held(Registry, Shared) in After(s, run)[0].held && Wants(After(s, run)[0], Registry, m)
    ensures forall j | 0 < j < |s| :: After(s, run)[j] == s[j]
    ensures cs[n].CallLookup? ==> m == Exclusive
  {
    hide Blocks, Trace, CallsBlocks, ValidRun, After, Passable, TakesRegistry;
    var held := [Held(Registry, Shared)];
    var before, mode, body, rest := FirstTaking(cs[n]);
    m := mode;
    var lead := [Read(Variables)] + (CallsBlocks(cs[..n]) + before);
    var end := [Region(Registry, m, body)] + (rest + CallsBlocks(cs[n + 1..]));
    SplitAt(cs, n, before, [Region(Registry, m, body)], rest);
    assert [Read(Variables)] + CallsBlocks(cs) == lead + end;
    PassConcat(CallsBlocks(cs[..n]), before, held);
    PassRead(held);
    PassConcat([Read(Variables)], CallsBlocks(cs[..n]) + before, held);
    TraceSplit(lead, end);
    VisitTrace(cs, lead, end);
    EnterAlone(s, 0, Registry, Shared, Trace(lead) + (Trace(end) + [Release(Registry)])) by { TakeFirst(); }
    assert [] + [Held(Registry, Shared)] == held;
    var s1 := s[0 := Thread(held, Trace(lead) + (Trace(end) + [Release(Registry)]))];
    var more := RunAlone(s1, 0, lead, held, Trace(end) + [Release(Registry)]);
    RunThen(s, [0], more);
    run := [0] + more;
    TraceFirst(end, [Release(Registry)]);
  }

  lemma TakeFirst()
    ensures MayTake([], Registry, Shared)
  {
  }

  lemma PassRead(held: seq<Held>)
    ensures Passable([Read(Variables)], held)
  {
  }

  lemma SplitAt(cs: seq<Call>, n: nat, before: seq<Block>, middle: seq<Block>, rest: seq<Block>)
    requires n < |cs| && Blocks(cs[n]) == before + (middle + rest)
    ensures CallsBlocks(cs) == CallsBlocks(cs[..n]) + before + (middle + (rest + CallsBlocks(cs[n + 1..])))
  {
    hide Blocks, CallsBlocks;
    assert cs == cs[..n] + ([cs[n]] + cs[n + 1..]);
    CallsSplit(cs[..n], [cs[n]] + cs[n + 1..]);
    CallsFirst(cs[n], cs[n + 1..]);
    Regroup(CallsBlocks(cs[..n]), before, middle, rest, CallsBlocks(cs[n + 1..]));
  }

  lemma CallsFirst(c: Call, cs: seq<Call>)
    ensures CallsBlocks([c] + cs) == Blocks(c) + CallsBlocks(cs)
  {
    assert ([c] + cs)[1..] == cs;
  }

  lemma Regroup(a: seq<Block>, b: seq<Block>, c: seq<Block>, d: seq<Block>, e: seq<Block>)
    ensures a + (b + (c + d) + e) == a + b + (c + (d + e))
  {
  }

  lemma VisitTrace(cs: seq<Call>, lead: seq<Block>, end: seq<Block>)
    requires [Read(Variables)] + CallsBlocks(cs) == lead + end && Trace(lead + end) == Trace(lead) + Trace(end)
    ensures Trace(VisitCalling(cs)) == [Acquire(Registry, Shared)] + (Trace(lead) + (Trace(end) + [Release(Registry)]))
  {
    hide Trace, CallsBlocks;
    TraceRegion(Registry, Shared, [Read(Variables)] + CallsBlocks(cs));
  }

  lemma OneJob(cs: seq<Call>, job: Option<Call>)
    ensures JobProgram(cs, [job]) == Trace(JobBlocks(cs, job))
  {
    assert JobProgram(cs, []) == [];
  }

  /** The first of the calls that meets a condition. */
  lemma {:induction false} First(cs: seq<Call>, p: Call -> bool)
    returns (n: nat)
    requires exists c :: c in cs && p(c)
    ensures n < |cs| && p(cs[n]) && forall c | c in cs[..n] :: !p(c)
  {
    if p(cs[0]) {
      n := 0;
    } else {
      var rest := First(cs[1..], p);
      n := rest + 1;
      assert cs[..n] == [cs[0]] + cs[1..][..rest];
    }
  }

  lemma TakingSticks(cs: seq<Call>)
    requires exists c :: c in cs && TakesRegistry(c)
    ensures !Safe(cs, true)
  {
    hide Blocks, Trace, VisitCalling, ValidRun, After, Passable;
    var n := First(cs, TakesRegistry);
    CallsSound(cs[..n], [Held(Registry, Shared)]);
    SoundPasses(CallsBlocks(cs[..n]), [Held(Registry, Shared)]);
    var programs := [[None], [Some(CallLookup(Created))]];
    OneJob(cs, None);
    OneJob(cs, Some(CallLookup(Created)));
    var s := StartJobs(cs, programs);
    LookupTrace(Created);
    var m, run := ReachTaking(cs, n, s);
    var t := After(s, run);
    assert t[1].rest[0] == Acquire(Registry, Exclusive) && t[0].rest[0] == Acquire(Registry, m);
    assert t[0].rest != [] && !MustStep(t, 0) && !MustStep(t, 1);
    assert !Moving(t, true);
  }

  lemma LookupTrace(found: Found)
    ensures Trace(Blocks(CallLookup(found))) != [] &&
              Trace(Blocks(CallLookup(found)))[0] == Acquire(Registry, Exclusive)
  {
    TraceRegion(Registry, Exclusive, [Read(Variables)] + InLookup(found));
  }

  lemma LookupSticks(cs: seq<Call>)
    requires exists c :: c in cs && c.CallLookup?
    ensures !Safe(cs, false)
  {
    hide Blocks, Trace, VisitCalling, ValidRun, After, Passable;
    var n := First(cs, (c: Call) => c.CallLookup?);
    CallsPass(cs[..n]);
    var programs := [[None]];
    OneJob(cs, None);
    var s := StartJobs(cs, programs);
    var m, run := ReachTaking(cs, n, s);
    var t := After(s, run);
    assert t[0].rest[0] == Acquire(Registry, Exclusive) && !CanStep(t, 0);
    assert !Moving(t, false);
  }

  // ---------- Exactly the safe callbacks ----------

  /** With locks that put off readers while a writer waits, a Visit is safe
      whatever else is going on if and only if its callbacks make no call that
      takes the registry's lock, not even to read. */
  lemma SafeIffAway(cs: seq<Call>)
    ensures Safe(cs, true) <==> forall c | c in cs :: !TakesRegistry(c)
  {
    hide Safe, TakesRegistry;
    if forall c | c in cs :: !TakesRegistry(c) {
      AwayIsSafe(cs);
    } else {
      TakingSticks(cs);
    }
  }

  /** With locks that let readers in whenever no writer holds them, as the default
      attributes do on glibc, it is safe if and only if its callbacks do not call
      the creating Lookup. */
  lemma SafeIffNoLookup(cs: seq<Call>)
    ensures Safe(cs, false) <==> forall c | c in cs :: !c.CallLookup?
  {
    hide Safe;
    if forall c | c in cs :: !c.CallLookup? {
      ReadersAreSafe(cs);
    } else {
      LookupSticks(cs);
    }
  }
}

/** Threads that run calls of the library against mutexes and read-write locks: no mix of calls
    gets stuck, and exactly the guarded data are free of races. */
module LockRuns {
  import opened LockOrder
  import opened Options

  datatype Instr = Acquire(lock: Lock, mode: Mode) | Release(lock: Lock) | Access(datum: Datum, write: bool)
  datatype Thread = Thread(held: seq<Held>, rest: seq<Instr>)

  // The operations of a forest of blocks, in program order.
  function Trace(bs: seq<Block>): seq<Instr>
    decreases bs
  {
    if bs == [] then []
    else (match bs[0]
          case Region(l, m, body) => [Acquire(l, m)] + Trace(body) + [Release(l)]
          case Use(d, w) => [Access(d, w)])
         + Trace(bs[1..])
  }

  function Program(calls: seq<Call>): seq<Instr> {
    if calls == [] then [] else Trace(Blocks(calls[0])) + Program(calls[1..])
  }

  /** From here on the thread releases locks in the reverse order of taking them, takes only locks
      ranked above all it holds, uses guarded data only under their locks, and ends holding none. */
  ghost predicate Disciplined(held: seq<Held>, rest: seq<Instr>)
    decreases |rest|
  {
    if rest == [] then held == []
    else match rest[0]
      case Acquire(l, m) => Below(held, Rank(l)) && Disciplined(held + [Held(l, m)], rest[1..])
      case Release(l) =>
        && held != [] && held[|held| - 1].lock == l
        && Disciplined(held[..|held| - 1], rest[1..])
      case Access(d, w) => Protected(held, d, w) && Disciplined(held, rest[1..])
  }

  lemma EnterRegion(l: Lock, m: Mode, held: seq<Held>, rest: seq<Instr>)
    requires Below(held, Rank(l)) && Disciplined(held + [Held(l, m)], rest)
    ensures Disciplined(held, [Acquire(l, m)] + rest)
  {
    assert ([Acquire(l, m)] + rest)[1..] == rest;
  }

  lemma LeaveRegion(l: Lock, m: Mode, held: seq<Held>, rest: seq<Instr>)
    requires Disciplined(held, rest)
    ensures Disciplined(held + [Held(l, m)], [Release(l)] + rest)
  {
    assert ([Release(l)] + rest)[1..] == rest;
    assert (held + [Held(l, m)])[..|held + [Held(l, m)]| - 1] == held;
  }

  lemma UseDatum(d: Datum, w: bool, held: seq<Held>, rest: seq<Instr>)
    requires Protected(held, d, w) && Disciplined(held, rest)
    ensures Disciplined(held, [Access(d, w)] + rest)
  {
    assert ([Access(d, w)] + rest)[1..] == rest;
  }

  lemma TraceFirst(bs: seq<Block>, rest: seq<Instr>)
    requires bs != []
    ensures var tail := Trace(bs[1..]) + rest;
            Trace(bs) + rest == match bs[0] {
              case Region(l, m, body) => [Acquire(l, m)] + (Trace(body) + ([Release(l)] + tail))
              case Use(d, w) => [Access(d, w)] + tail
            }
  {
  }

  lemma {:induction false} TraceDisciplined(bs: seq<Block>, held: seq<Held>, rest: seq<Instr>)
    requires Sound(bs, held) && Disciplined(held, rest)
    ensures Disciplined(held, Trace(bs) + rest)
    decreases bs
  {
    hide Disciplined, Below, Protected;
    if bs == [] {
      assert Trace(bs) + rest == rest;
    } else {
      hide Trace;
      var tail := Trace(bs[1..]) + rest;
      TraceDisciplined(bs[1..], held, rest);
      TraceFirst(bs, rest);
      match bs[0]
      case Region(l, m, body) =>
        LeaveRegion(l, m, held, tail);
        TraceDisciplined(body, held + [Held(l, m)], [Release(l)] + tail);
        EnterRegion(l, m, held, Trace(body) + ([Release(l)] + tail));
      case Use(d, w) => UseDatum(d, w, held, tail);
    }
  }

  /** What a thread does is disciplined, whatever calls it makes. */
  lemma {:induction false} ProgramDisciplined(calls: seq<Call>)
    ensures Disciplined([], Program(calls))
  {
    hide Trace, Blocks;
    if calls == [] {
    } else {
      ProgramDisciplined(calls[1..]);
      CallSound(calls[0]);
      TraceDisciplined(Blocks(calls[0]), [], Program(calls[1..]));
    }
  }

  // ---- Runs -----------------------------------------------------------------------------------

  // Two threads may hold one lock only when both read.
  ghost predicate Excludes(a: Thread, b: Thread) {
    forall h, k | h in a.held && k in b.held && h.lock == k.lock :: h.mode == k.mode == Shared
  }

  ghost predicate Grantable(s: seq<Thread>, l: Lock, m: Mode) {
    forall j, h | 0 <= j < |s| && h in s[j].held && h.lock == l :: h.mode == m == Shared
  }

  predicate Wants(t: Thread, l: Lock, m: Mode) {
    t.rest != [] && t.rest[0] == Acquire(l, m)
  }

  /** What thread i needs for its next operation: any lock implementation grants an acquisition
      only when no holder conflicts. */
  ghost predicate CanStep(s: seq<Thread>, i: nat)
    requires i < |s|
  {
    s[i].rest != [] && (s[i].rest[0].Acquire? ==> Grantable(s, s[i].rest[0].lock, s[i].rest[0].mode))
  }

  /** Nothing can keep thread i waiting, even where read-write locks put off every reader for as
      long as some writer waits. */
  ghost predicate MustStep(s: seq<Thread>, i: nat)
    requires i < |s|
  {
    && CanStep(s, i)
    && (s[i].rest[0].Acquire? && s[i].rest[0].mode == Shared ==>
          forall j | 0 <= j < |s| :: !Wants(s[j], s[i].rest[0].lock, Exclusive))
  }

  function StepThread(t: Thread): Thread
    requires t.rest != []
  {
    match t.rest[0]
    case Acquire(l, m) => Thread(t.held + [Held(l, m)], t.rest[1..])
    case Release(_) => Thread(if t.held == [] then [] else t.held[..|t.held| - 1], t.rest[1..])
    case Access(_, _) => Thread(t.held, t.rest[1..])
  }

  function Stepped(s: seq<Thread>, i: nat): seq<Thread>
    requires i < |s| && s[i].rest != []
  {
    s[i := StepThread(s[i])]
  }

  ghost predicate ValidRun(s: seq<Thread>, run: seq<nat>)
    decreases |run|
  {
    run == [] || (run[0] < |s| && CanStep(s, run[0]) && ValidRun(Stepped(s, run[0]), run[1..]))
  }

  ghost function After(s: seq<Thread>, run: seq<nat>): seq<Thread>
    requires ValidRun(s, run)
    decreases |run|
  {
    if run == [] then s else After(Stepped(s, run[0]), run[1..])
  }

  /** Threads about to run the given lists of calls. */
  function Start(programs: seq<seq<Call>>): seq<Thread> {
    seq(|programs|, i requires 0 <= i < |programs| => Thread([], Program(programs[i])))
  }

  ghost predicate SystemOk(s: seq<Thread>) {
    && (forall i | 0 <= i < |s| :: Disciplined(s[i].held, s[i].rest))
    && (forall i, j | 0 <= i < j < |s| :: Excludes(s[i], s[j]))
  }

  function Remaining(s: seq<Thread>): nat {
    if s == [] then 0 else |s[0].rest| + Remaining(s[1..])
  }

  lemma {:induction false} RemainingStep(s: seq<Thread>, i: nat)
    requires i < |s| && s[i].rest != []
    ensures Remaining(Stepped(s, i)) == Remaining(s) - 1
  {
    var t := Stepped(s, i);
    if i > 0 {
      RemainingStep(s[1..], i - 1);
      assert t[1..] == Stepped(s[1..], i - 1);
    }
  }

  lemma StepOk(s: seq<Thread>, i: nat)
    requires SystemOk(s) && i < |s| && CanStep(s, i)
    ensures SystemOk(Stepped(s, i))
  {
    var t := StepThread(s[i]);
    assert Disciplined(t.held, t.rest);
    forall j | 0 <= j < |s| && j != i ensures Excludes(t, s[j]) && Excludes(s[j], t) {
      assert if i < j then Excludes(s[i], s[j]) else Excludes(s[j], s[i]);
    }
  }

  lemma {:induction false} RunOk(s: seq<Thread>, run: seq<nat>)
    requires SystemOk(s) && ValidRun(s, run)
    ensures SystemOk(After(s, run)) && |After(s, run)| == |s|
    ensures Remaining(After(s, run)) == Remaining(s) - |run|
    decreases |run|
  {
    hide SystemOk, CanStep, Remaining, StepThread;
    if run == [] {
    } else {
      CanStepHasWork(s, run[0]);
      StepOk(s, run[0]);
      RemainingStep(s, run[0]);
      RunOk(Stepped(s, run[0]), run[1..]);
    }
  }

  lemma CanStepHasWork(s: seq<Thread>, i: nat)
    requires i < |s| && CanStep(s, i)
    ensures s[i].rest != []
  {
  }

  lemma StartOk(programs: seq<seq<Call>>)
    ensures SystemOk(Start(programs))
  {
    hide Program;
    forall i | 0 <= i < |programs| ensures Disciplined([], Program(programs[i])) {
      ProgramDisciplined(programs[i]);
    }
  }

  // ---- Nobody gets stuck ----------------------------------------------------------------------

  // A thread holding a lock is not finished, and if it waits, it waits for a higher lock.
  lemma HolderWaitsHigher(t: Thread, h: Held)
    requires Disciplined(t.held, t.rest) && h in t.held
    ensures t.rest != [] && (t.rest[0].Acquire? ==> Rank(t.rest[0].lock) > Rank(h.lock))
  {
  }

  // Among threads that cannot step, following who holds the wanted lock climbs for ever.
  lemma {:induction false} Progress(s: seq<Thread>, i: nat)
    requires SystemOk(s) && i < |s| && s[i].rest != []
    ensures exists k: nat :: k < |s| && MustStep(s, k)
    decreases if s[i].rest[0].Acquire? then 6 - Rank(s[i].rest[0].lock) else 0,
              if s[i].rest[0].Acquire? && s[i].rest[0].mode == Shared then 1 else 0
  {
    if !MustStep(s, i) {
      var l, m := s[i].rest[0].lock, s[i].rest[0].mode;
      if Grantable(s, l, m) {
        var w :| 0 <= w < |s| && Wants(s[w], l, Exclusive);
        Progress(s, w);
      } else {
        var j, h :| 0 <= j < |s| && h in s[j].held && h.lock == l;
        HolderWaitsHigher(s[j], h);
        Progress(s, j);
      }
    }
  }

  /** However the threads' calls interleave, while one thread has work left some thread can step:
      even when read-write locks hold back every reader behind a waiting writer. */
  lemma NeverStuck(programs: seq<seq<Call>>, run: seq<nat>, i: nat)
    requires ValidRun(Start(programs), run)
    requires i < |After(Start(programs), run)| && After(Start(programs), run)[i].rest != []
    ensures exists k: nat :: k < |After(Start(programs), run)| && MustStep(After(Start(programs), run), k)
  {
    StartOk(programs);
    RunOk(Start(programs), run);
    Progress(After(Start(programs), run), i);
  }

  /** Every run ends: it has at most as many steps as there are operations, and where it cannot be
      continued every thread has finished and holds no lock. */
  lemma RunsEnd(programs: seq<seq<Call>>, run: seq<nat>)
    requires ValidRun(Start(programs), run)
    ensures |run| <= Remaining(Start(programs))
    ensures var s := After(Start(programs), run);
            (forall i: nat | i < |s| :: !MustStep(s, i)) ==> forall t | t in s :: t == Thread([], [])
  {
    StartOk(programs);
    RunOk(Start(programs), run);
    var s := After(Start(programs), run);
    if forall i: nat | i < |s| :: !MustStep(s, i) {
      forall i | 0 <= i < |s| ensures s[i] == Thread([], []) {
        if s[i].rest != [] {
          Progress(s, i);
        }
      }
    }
  }

  /** A thread that asks for a lock it holds already, unless both times to read, never gets it in
      any run, whatever lock policy there is and whatever the other threads do. */
  lemma {:induction false} WaitsForever(s: seq<Thread>, i: nat, h: Held, m: Mode, run: seq<nat>)
    requires i < |s| && h in s[i].held && Wants(s[i], h.lock, m) && !(h.mode == m == Shared)
    requires ValidRun(s, run)
    ensures i !in run && |After(s, run)| == |s| && After(s, run)[i] == s[i]
    decreases |run|
  {
    if run == [] {
    } else {
      assert !CanStep(s, i);
      WaitsForever(Stepped(s, run[0]), i, h, m, run[1..]);
    }
  }

  // ---- Data races -----------------------------------------------------------------------------

  /** Two threads are about to use `d` at once, one of them to write it. */
  ghost predicate Races(a: Thread, b: Thread, d: Datum) {
    && a.rest != [] && a.rest[0].Access? && a.rest[0].datum == d
    && b.rest != [] && b.rest[0].Access? && b.rest[0].datum == d
    && (a.rest[0].write || b.rest[0].write)
  }

  /** Some calls on some threads can race on `d`. */
  ghost predicate CanRace(d: Datum) {
    exists programs, run, i, j ::
      && ValidRun(Start(programs), run)
      && 0 <= i < j < |After(Start(programs), run)|
      && Races(After(Start(programs), run)[i], After(Start(programs), run)[j], d)
  }

  lemma GuardedDoNotRace(a: Thread, b: Thread, d: Datum)
    requires Disciplined(a.held, a.rest) && Disciplined(b.held, b.rest) && Excludes(a, b)
    requires Races(a, b, d)
    ensures Guard(d).None?
  {
    assert Protected(a.held, d, a.rest[0].write) && Protected(b.held, d, b.rest[0].write);
  }

  // Two threads that never want the same lock run any number of operations each.
  lemma {:induction false} RunApart(s: seq<Thread>, locks: set<Lock>, m: nat, n: nat)
    returns (run: seq<nat>)
    requires |s| == 2 && m <= |s[0].rest| && n <= |s[1].rest|
    requires forall h | h in s[0].held :: h.lock in locks
    requires forall x | x in s[0].rest[..m] && x.Acquire? :: x.lock in locks
    requires forall h | h in s[1].held :: h.lock !in locks
    requires forall x | x in s[1].rest[..n] && x.Acquire? :: x.lock !in locks
    requires Disciplined(s[0].held, s[0].rest) && Disciplined(s[1].held, s[1].rest)
    ensures ValidRun(s, run) && |After(s, run)| == 2
    ensures After(s, run)[0].rest == s[0].rest[m..] && After(s, run)[1].rest == s[1].rest[n..]
    decreases m + n
  {
    if m == 0 && n == 0 {
      run := [];
    } else {
      var i := if m > 0 then 0 else 1;
      var x := s[i].rest[0];
      assert x in (if m > 0 then s[0].rest[..m] else s[1].rest[..n]);
      assert CanStep(s, i) by { FreeToStep(s, i, x); }
      var t := Stepped(s, i);
      assert Disciplined(t[i].held, t[i].rest);
      var m', n' := if m > 0 then m - 1 else 0, if m > 0 then n else n - 1;
      assert t[0].rest[..m'] == s[0].rest[if m > 0 then 1 else 0..m];
      assert t[1].rest[..n'] == s[1].rest[if m > 0 then 0 else 1..n];
      var more := RunApart(t, locks, m', n');
      run := [i] + more;
      assert run[1..] == more;
    }
  }

  // The other thread's locks are others, and the thread's own rank below the one it takes.
  lemma FreeToStep(s: seq<Thread>, i: nat, x: Instr)
    requires i < |s| == 2 && s[i].rest != [] && x == s[i].rest[0] && Disciplined(s[i].held, s[i].rest)
    requires x.Acquire? ==> forall h | h in s[1 - i].held :: h.lock != x.lock
    ensures CanStep(s, i)
  {
  }

  /** The m-th operation of one call against the n-th of another, as far as the two calls take
      different locks on the way there. */
  lemma RaceWitness(c: Call, e: Call, locks: set<Lock>, m: nat, n: nat, d: Datum)
    requires m < |Trace(Blocks(c))| && n < |Trace(Blocks(e))|
    requires Trace(Blocks(c))[m] == Access(d, true) && Trace(Blocks(e))[n].Access? && Trace(Blocks(e))[n].datum == d
    requires forall k | 0 <= k < m && Trace(Blocks(c))[k].Acquire? :: Trace(Blocks(c))[k].lock in locks
    requires forall k | 0 <= k < n && Trace(Blocks(e))[k].Acquire? :: Trace(Blocks(e))[k].lock !in locks
    ensures CanRace(d)
  {
    hide Trace, Blocks, Disciplined;
    OneCall(c);
    OneCall(e);
    var programs := [[c], [e]];
    var s := Start(programs);
    ProgramDisciplined([c]);
    ProgramDisciplined([e]);
    var run := RunApart(s, locks, m, n);
    assert Races(After(s, run)[0], After(s, run)[1], d);
  }

  lemma OneCall(c: Call)
    ensures Program([c]) == Trace(Blocks(c))
  {
    assert Program([]) == [];
  }

  /** Exactly the guarded data are free of races, over all calls of any number of threads. The
      others are the levels, the flag of an appender's own formatter, the formatter a logger hands
      out, the time of a file's last use, and the key counter that variables of one type share. */
  lemma RaceFreeIffGuarded(d: Datum)
    ensures CanRace(d) <==> Guard(d).None?
  {
    if CanRace(d) {
      var programs, run, i, j :|
        && ValidRun(Start(programs), run)
        && 0 <= i < j < |After(Start(programs), run)|
        && Races(After(Start(programs), run)[i], After(Start(programs), run)[j], d);
      StartOk(programs);
      RunOk(Start(programs), run);
      GuardedDoNotRace(After(Start(programs), run)[i], After(Start(programs), run)[j], d);
    }
    if Guard(d).None? {
      UnguardedRace(d);
    }
  }

  lemma UnguardedRace(d: Datum)
    requires Guard(d).None?
    ensures CanRace(d)
  {
    hide CanRace;
    match d
    case Level(g) => RaceWitness(CallOnLoggers(CallSetLevel(g)), CallOnLoggers(CallSetLevel(g)), {}, 0, 0, d);
    case Threshold(a) => RaceWitness(CallOnLoggers(CallSetThreshold(a)), CallOnLoggers(CallSetThreshold(a)), {}, 0, 0,
        d);
    case NextKey(typeName) => KeysRace(typeName);
    case OwnFlag(a) => FlagRace(a);
    case Formatter(g) => FormatterRace(g);
    case LastTime(a) => TimeRace(a);
  }

  lemma TraceUse(d: Datum, w: bool, rest: seq<Block>)
    ensures Trace([Use(d, w)] + rest) == [Access(d, w)] + Trace(rest)
  {
    assert ([Use(d, w)] + rest)[1..] == rest;
  }

  lemma JoinOne(parts: seq<seq<Block>>)
    requires |parts| == 1
    ensures Join(parts) == parts[0]
  {
    assert Join(parts[1..]) == [];
  }

  lemma TraceRegion(l: Lock, m: Mode, body: seq<Block>)
    ensures Trace([Region(l, m, body)]) == [Acquire(l, m)] + Trace(body) + [Release(l)]
  {
    assert [Region(l, m, body)][1..] == [];
  }

  lemma TraceUses(x: Datum, v: bool, y: Datum, w: bool, rest: seq<Block>)
    ensures Trace([Use(x, v), Use(y, w)] + rest) == [Access(x, v), Access(y, w)] + Trace(rest)
  {
    hide Trace;
    assert [Use(x, v), Use(y, w)] + rest == [Use(x, v)] + ([Use(y, w)] + rest);
    TraceUse(x, v, [Use(y, w)] + rest);
    TraceUse(y, w, rest);
  }

  // Listeners added to two variables of one type.
  lemma KeysRace(typeName: string)
    ensures CanRace(NextKey(typeName))
  {
    hide CanRace, Trace;
    var d := NextKey(typeName);
    KeysTrace("a", typeName);
    KeysTrace("b", typeName);
    RaceWitness(CallAddListener("a", typeName), CallAddListener("b", typeName), {Variable("a")}, 3, 1, d);
  }

  lemma KeysTrace(v: string, typeName: string)
    ensures Trace(Blocks(CallAddListener(v, typeName)))
         == [Acquire(Variable(v), Exclusive), Access(NextKey(typeName), false), Access(Listeners(v), true),
             Access(NextKey(typeName), true)] + Trace([]) + [Release(Variable(v))]
  {
    hide Trace;
    var d := NextKey(typeName);
    var body := [Read(d), Write(Listeners(v)), Write(d)];
    assert body == [Read(d), Write(Listeners(v))] + ([Write(d)] + []);
    TraceUses(d, false, Listeners(v), true, [Write(d)] + []);
    TraceUse(d, true, []);
    TraceRegion(Variable(v), Exclusive, body);
  }

  // An appender given a formatter of its own while its logger's is changed.
  lemma FlagRace(a: nat)
    ensures CanRace(OwnFlag(a))
  {
    hide CanRace, Trace;
    var d := OwnFlag(a);
    var own := [Write(Layout(a)), Write(d)];
    assert own == own + [];
    TraceUses(Layout(a), true, d, true, []);
    TraceRegion(Appender(a), Exclusive, own);
    var t := Attachment(a, true);
    var body := [Read(Attached(TheRoot))] + (ReformatAll([t]) + [Write(Formatter(TheRoot))]);
    var ts := [t];
    JoinOne(seq(|ts|, i requires 0 <= i < |ts| => Reformat(ts[i])));
    assert Reformat(t) == [Read(d)] && ReformatAll(ts) == [Read(d)];
    assert body == [Read(Attached(TheRoot)), Read(d)] + [Write(Formatter(TheRoot))];
    TraceUses(Attached(TheRoot), false, d, false, [Write(Formatter(TheRoot))]);
    TraceRegion(Root, Exclusive, body);
    RaceWitness(CallOnLoggers(CallSetOwnLayout(a)), CallOnLoggers(CallSetFormatter(TheRoot, [t])), {Appender(a)}, 2,
        2, d);
  }

  // A logger's formatter asked for while it is changed.
  lemma FormatterRace(g: Logger)
    ensures CanRace(Formatter(g))
  {
    hide CanRace, Trace;
    var d := Formatter(g);
    var body := [Read(Attached(g))] + (ReformatAll([]) + [Write(d)]);
    assert ReformatAll([]) == [];
    assert body == [Read(Attached(g)), Write(d)] + [];
    TraceUses(Attached(g), false, d, true, []);
    TraceRegion(LoggerLock(g), Exclusive, body);
    assert [Read(d)] == [Read(d)] + [];
    TraceUse(d, false, []);
    RaceWitness(CallOnLoggers(CallSetFormatter(g, [])), CallOnLoggers(CallGetFormatter(g)), {LoggerLock(g)}, 2, 0, d);
  }

  // One file appender attached to two loggers.
  lemma TimeRace(a: nat)
    ensures CanRace(LastTime(a))
  {
    hide CanRace, Trace;
    var sink := ToFile(a, true);
    TimeTrace("a", a);
    TimeTrace("b", a);
    RaceWitness(CallOnLoggers(CallLog(Own("a", [sink]))), CallOnLoggers(CallLog(Own("b", [sink]))), {Named("a")}, 5,
        4, LastTime(a));
  }

  lemma TimeTrace(name: string, a: nat)
    ensures var t := Trace(Blocks(CallOnLoggers(CallLog(Own(name, [ToFile(a, true)])))));
            && |t| > 5
            && t[0] == Access(Level(ByName(name)), false) && t[1] == Acquire(Named(name), Exclusive)
            && t[2] == Access(Attached(ByName(name)), false) && t[3] == Access(Threshold(a), false)
            && t[4] == Access(LastTime(a), false) && t[5] == Access(LastTime(a), true)
  {
    hide Trace;
    var g, d, sink := ByName(name), LastTime(a), ToFile(a, true);
    var rest := [Region(Appender(a), Exclusive, [Write(File(a))])] + Emit(a);
    assert SinkBlocks(sink) == [Read(Threshold(a)), Read(d), Write(d)] + rest;
    var sinks := [sink];
    JoinOne(seq(|sinks|, i requires 0 <= i < |sinks| => SinkBlocks(sinks[i])));
    assert Sinks(sinks) == SinkBlocks(sink);
    var body := [Read(Attached(g))] + Sinks([sink]);
    assert body == [Read(Attached(g)), Read(Threshold(a))] + ([Read(d), Write(d)] + rest);
    TraceUses(Attached(g), false, Threshold(a), false, [Read(d), Write(d)] + rest);
    TraceUses(d, false, d, true, rest);
    TraceRegion(Named(name), Exclusive, body);
    TraceUse(Level(g), false, [Region(Named(name), Exclusive, body)]);
    assert Log(Own(name, [sink])) == [Read(Level(g))] + [Region(Named(name), Exclusive, body)];
  }
}

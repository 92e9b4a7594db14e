/** From a swapIn call to its return: a burst of a callback's actions, however
    other commands interleave with it; how bursts lead to a callback's end, and
    what one without yields does in a single one. */
module FiberBursts {
  import opened FiberMachine
  import opened FiberSafety
  import opened FiberTheorems
  import opened Options

  /** The actions a running callback has left, its return included. */
  function Left(s: Sys, t: Tid): int
    requires t in s.threads && s.threads[t].exec.stack.OnFiber? && s.threads[t].exec.stack.f in s.heap
  {
    var r := s.heap[s.threads[t].exec.stack.f];
    |r.prog| - |r.log| + 1
  }

  predicate OnCallback(s: Sys, t: Tid) {
    t in s.threads && s.threads[t].exec.stack.OnFiber?
  }

  /** Thread `t` of `s` is back in its own code, where its swapIn call returns. */
  predicate BackHome(s: Sys, t: Tid, s': Sys)
    requires t in s.threads && s.threads[t].call.Some?
  {
    t in s'.threads && s'.threads[t].exec == Ctx(OnThread, MainCode(s.threads[t].call.value.back))
  }

  lemma CallbackIs(s: Sys, t: Tid)
    requires Inv(s) && OnCallback(s, t)
    ensures var f := s.threads[t].exec.stack.f;
            && f in s.heap && s.heap[f].stack && s.heap[f].owner == t && s.heap[f].state == EXEC
            && s.heap[f].handles > 0 && s.heap[f].refs == s.heap[f].handles + 1
            && |s.heap[f].log| <= |s.heap[f].prog| && s.threads[t].call.Some? && s.threads[t].call.value.f == f
            && s.threads[t].cur == Some(f) && !s.threads[t].exited && Refers(s.threads[t], f)
  {
    hide IdsOk, SavedRight;
    assert ThreadOk(s, t);
    assert FiberOkIn(s, s.threads[t].exec.stack.f);
  }

  /** The callback `t` is in, and how far it is. */
  predicate SameBurst(s: Sys, t: Tid, s': Sys)
    requires OnCallback(s, t)
  {
    var f := s.threads[t].exec.stack.f;
    && OnCallback(s', t) && s'.threads[t].exec == s.threads[t].exec && s'.threads[t].call == s.threads[t].call
    && f in s.heap && f in s'.heap
    && s'.heap[f].prog == s.heap[f].prog && s'.heap[f].log == s.heap[f].log && s'.heap[f].swaps == s.heap[f].swaps
    && s'.heap[f].stack == s.heap[f].stack && s'.heap[f].owner == s.heap[f].owner
  }

  /** Nothing but the callback's own next action moves it on. */
  lemma OthersDoNotMove(s: Sys, t: Tid, c: Command)
    requires Inv(s) && OnCallback(s, t) && Legal(s, c) && c != Act(t)
    ensures Good(Step(s, c)) && SameBurst(s, t, Step(s, c).s)
  {
    hide Inv, SameBurst;
    StepKeeps(s, c);
    CallbackIs(s, t);
    match c
    case GetThis(u) => CreatingMovesNobody(s, t, c);
    case NewBegin(u) => CreatingMovesNobody(s, t, c);
    case NewEnd(u, script) => CreatingMovesNobody(s, t, c);
    case SwapIn(u, g) => SwapMovesOne(s, t, u, g);
    case Act(u) => ActMovesOne(s, t, u);
    case Reset(u, g, script) => RewritingMovesNobody(s, t, g, script);
    case Copy(_, g) => RewritingMovesNobody(s, t, g, []);
    case Drop(u, g) => DropMovesNobody(s, t, u, g);
    case Exit(u) => ExitMovesNobody(s, t, u);
  }

  lemma CreatingMovesNobody(s: Sys, t: Tid, c: Command)
    requires Inv(s) && OnCallback(s, t) && s.threads[t].exec.stack.f in s.heap && s.threads[t].cur.Some?
    requires Legal(s, c) && (c.GetThis? || c.NewBegin? || c.NewEnd?)
    ensures Step(s, c).Ok? ==> SameBurst(s, t, Step(s, c).s)
  {
    hide FiberOk, ThreadOk, IdsOk;
    NextRefFresh(s);
  }

  lemma RewritingMovesNobody(s: Sys, t: Tid, g: Ref, script: Script)
    requires OnCallback(s, t)
    requires var f := s.threads[t].exec.stack.f; f in s.heap && s.heap[f].state == EXEC
    ensures StepCopy(s, g).Ok? ==> SameBurst(s, t, StepCopy(s, g).s)
    ensures StepReset(s, g, script).Ok? ==> SameBurst(s, t, StepReset(s, g, script).s)
  {
  }

  lemma SwapMovesOne(s: Sys, t: Tid, u: Tid, g: Ref)
    requires Inv(s) && OnCallback(s, t) && Legal(s, SwapIn(u, g))
    requires var f := s.threads[t].exec.stack.f; f in s.heap && s.heap[f].stack && s.heap[f].state == EXEC
    ensures StepSwapIn(s, u, g).Ok? ==> SameBurst(s, t, StepSwapIn(s, u, g).s)
  {
    hide Inv, StepSwapIn;
    SwapInResult(s, u, g);
    CanSwap(s, u, g);
  }

  lemma ActMovesOne(s: Sys, t: Tid, u: Tid)
    requires Inv(s) && OnCallback(s, t) && u != t && Legal(s, Act(u))
    requires var f := s.threads[t].exec.stack.f; f in s.heap && s.heap[f].owner == t
    ensures StepAct(s, u).Ok? ==> SameBurst(s, t, StepAct(s, u).s)
  {
    hide Inv, StepAct;
    ActResult(s, u);
    CanAct(s, u);
  }

  lemma DropMovesNobody(s: Sys, t: Tid, u: Tid, g: Ref)
    requires Inv(s) && OnCallback(s, t) && Legal(s, Drop(u, g))
    requires var f := s.threads[t].exec.stack.f;
             && f in s.heap && s.heap[f].owner == t && s.heap[f].handles > 0 && s.heap[f].refs == s.heap[f].handles + 1
             && s.threads[t].call.Some? && s.threads[t].call.value.f == f && Refers(s.threads[t], f)
    ensures StepDrop(s, u, g).Ok? ==> SameBurst(s, t, StepDrop(s, u, g).s)
  {
    hide Inv;
    DroppedOk(s, u, g);
    DropKeeps(s, u, g);
    if s.heap[g].refs == 1 {
      DestructorAsserts(s, u, g);
    }
  }

  lemma ExitMovesNobody(s: Sys, t: Tid, u: Tid)
    requires Inv(s) && OnCallback(s, t) && Legal(s, Exit(u))
    requires var f := s.threads[t].exec.stack.f; f in s.heap && s.heap[f].stack
    ensures StepExit(s, u).Ok? ==> SameBurst(s, t, StepExit(s, u).s)
  {
    hide Inv, StepExit;
    ExitResult(s, u);
    if s.threads[u].last.Some? {
      CanExit(s, u);
    }
  }

  function Count(t: Tid, cs: seq<Command>): nat {
    if cs == [] then 0 else (if cs[0] == Act(t) then 1 else 0) + Count(t, cs[1..])
  }

  /** A burst ends: in any run of any threads, by the time a running callback has
      taken as many actions as its script has left, and its return, it has given
      the thread back to the swapIn call it runs in. */
  lemma {:induction false} BurstEnds(s: Sys, t: Tid, cs: seq<Command>)
    returns (k: nat)
    requires Inv(s) && OnCallback(s, t) && LegalRun(s, cs)
    requires s.threads[t].exec.stack.f in s.heap && Left(s, t) <= Count(t, cs)
    ensures k <= |cs| && Count(t, cs[..k]) <= Left(s, t)
    ensures Good(Run(s, cs[..k])) && s.threads[t].call.Some? && BackHome(s, t, Run(s, cs[..k]).s)
    ensures var s', f := Run(s, cs[..k]).s, s.threads[t].exec.stack.f;
            && f in s'.heap && s'.heap[f].prog == s.heap[f].prog && s'.heap[f].swaps == s.heap[f].swaps
            && s'.heap[f].stack && s'.heap[f].owner == t
    decreases |cs|
  {
    hide Inv, Step, Legal;
    CallbackIs(s, t);
    assert cs != [];
    var c := cs[0];
    NeedsThread(s, c);
    StepKeeps(s, c);
    var s1 := Step(s, c).s;
    if c == Act(t) {
      OwnAction(s, t);
    } else {
      OthersDoNotMove(s, t, c);
    }
    if OnCallback(s1, t) {
      var k1 := BurstEnds(s1, t, cs[1..]);
      k := k1 + 1;
      assert cs[..k][1..] == cs[1..][..k1];
    } else {
      k := 1;
      assert cs[..1][1..] == [] && cs[..1] == [c];
    }
  }

  lemma NeedsThread(s: Sys, c: Command)
    requires Legal(s, c)
    ensures c.t in s.threads
  {
  }

  /** An own action: one less is left, or the thread is back home. */
  lemma OwnAction(s: Sys, t: Tid)
    requires Inv(s) && Legal(s, Act(t))
    ensures Good(Step(s, Act(t))) && OnCallback(s, t) && s.threads[t].call.Some?
    ensures var s', f := Step(s, Act(t)).s, s.threads[t].exec.stack.f;
            && f in s.heap && f in s'.heap && |s.heap[f].log| <= |s.heap[f].prog| && t in s'.threads
            && s'.heap[f].prog == s.heap[f].prog && s'.heap[f].swaps == s.heap[f].swaps
            && s'.heap[f].stack == s.heap[f].stack && s'.heap[f].owner == s.heap[f].owner
            && s'.heap[f].handles == s.heap[f].handles && s'.threads[t].last == s.threads[t].last
            && s'.threads[t].pending == s.threads[t].pending && s'.threads[t].exited == s.threads[t].exited
            && if OnCallback(s', t) then
                 s'.threads[t].exec.stack == s.threads[t].exec.stack && s'.threads[t].call == s.threads[t].call
                 && |s'.heap[f].log| == |s.heap[f].log| + 1
               else BackHome(s, t, s')
  {
    hide Inv, StepAct;
    CanAct(s, t);
    ActResult(s, t);
    ActKeeps(s, t);
    var r := s.heap[s.threads[t].exec.stack.f];
    assert |r.log| == |r.prog| ==> r.log == r.prog;
  }

  // ---------- Runs without other commands ----------

  function Acts(t: Tid, n: nat): seq<Command> {
    if n == 0 then [] else [Act(t)] + Acts(t, n - 1)
  }

  /** The actions of a burst on their own are a legal run; the callback's script
      and its number of swapIns do not change. */
  lemma {:induction false} BurstRuns(s: Sys, t: Tid)
    returns (n: nat)
    requires Inv(s) && Legal(s, Act(t))
    ensures LegalRun(s, Acts(t, n)) && Good(Run(s, Acts(t, n))) && s.threads[t].call.Some?
    ensures var s', f := Run(s, Acts(t, n)).s, s.threads[t].exec.stack.f;
            && BackHome(s, t, s') && f in s.heap && f in s'.heap
            && s'.heap[f].prog == s.heap[f].prog && s'.heap[f].swaps == s.heap[f].swaps
            && s'.heap[f].stack == s.heap[f].stack && s'.heap[f].owner == s.heap[f].owner
            && s'.heap[f].handles == s.heap[f].handles && s'.threads[t].last == s.threads[t].last
            && s'.threads[t].pending == s.threads[t].pending && s'.threads[t].exited == s.threads[t].exited
            && n <= Left(s, t)
    decreases |s.heap[s.threads[t].exec.stack.f].prog| - |s.heap[s.threads[t].exec.stack.f].log|
  {
    hide Inv, Step;
    OwnAction(s, t);
    var s1 := Step(s, Act(t)).s;
    if OnCallback(s1, t) {
      CallbackIs(s1, t);
      var n1 := BurstRuns(s1, t);
      n := n1 + 1;
      assert Acts(t, n)[1..] == Acts(t, n1);
    } else {
      n := 1;
      assert Acts(t, 1) == [Act(t)] && Acts(t, 1)[1..] == [];
    }
  }

  // ---------- To the end ----------

  lemma {:induction false} RunConcat(s: Sys, a: seq<Command>, b: seq<Command>)
    requires LegalRun(s, a) && Run(s, a).Ok? && LegalRun(Run(s, a).s, b)
    ensures LegalRun(s, a + b) && Run(s, a + b) == Run(Run(s, a).s, b)
    decreases |a|
  {
    hide Step, Legal;
    if a == [] {
      assert a + b == b;
    } else {
      assert (a + b)[1..] == a[1..] + b;
      NeedsThread(s, a[0]);
      RunConcat(Step(s, a[0]).s, a[1..], b);
    }
  }

  /** Thread `t` is in its own code and could swap the fiber `f` in, if `f` can run. */
  predicate CanDrive(s: Sys, t: Tid, f: Ref) {
    && t in s.threads && !s.threads[t].exited && s.threads[t].pending.None?
    && s.threads[t].exec.stack == OnThread && s.threads[t].last.Some?
    && Held(s, f) && s.heap[f].stack && s.heap[f].owner == t
  }

  lemma Drivable(s: Sys, t: Tid, f: Ref)
    requires Inv(s) && CanDrive(s, t, f)
    ensures Progress(s.heap[f]) && s.heap[f].state != EXEC && s.threads[t].cur.Some?
    ensures s.heap[f].swaps <= Yields(s.heap[f].prog) + 1
    ensures !Ended(s.heap[f]) ==> Legal(s, SwapIn(t, f)) && s.heap[f].swaps <= Yields(s.heap[f].prog)
  {
    hide IdsOk, SavedRight;
    assert ThreadOk(s, t) && FiberOkIn(s, f);
    PrefixYields(s.heap[f].log, s.heap[f].prog);
  }

  /** One more swapIn, up to its return. */
  lemma OneMoreBurst(s: Sys, t: Tid, f: Ref)
    returns (cs: seq<Command>)
    requires Inv(s) && CanDrive(s, t, f) && Legal(s, SwapIn(t, f))
    ensures LegalRun(s, cs) && Good(Run(s, cs)) && forall c :: c in cs ==> c == SwapIn(t, f) || c == Act(t)
    ensures var s' := Run(s, cs).s;
            CanDrive(s', t, f) && s'.heap[f].prog == s.heap[f].prog && s'.heap[f].swaps == s.heap[f].swaps + 1
  {
    hide Inv, Step, Legal;
    NeedsThread(s, SwapIn(t, f));
    SwapStarts(s, t, f);
    var s1 := Step(s, SwapIn(t, f)).s;
    var first := [SwapIn(t, f)];
    assert first[1..] == [];
    var n := BurstRuns(s1, t);
    RunConcat(s, first, Acts(t, n));
    OnlyActs(t, n);
    LegalThread(s1, t);
    cs := first + Acts(t, n);
  }

  lemma LegalThread(s: Sys, t: Tid)
    requires Legal(s, Act(t))
    ensures !s.threads[t].exited && s.threads[t].pending.None?
  {
  }

  lemma {:induction false} OnlyActs(t: Tid, n: nat)
    ensures forall c :: c in Acts(t, n) ==> c == Act(t)
  {
    if n == 0 {
    } else {
      OnlyActs(t, n - 1);
    }
  }

  /** Whatever state a fiber is in while its thread is in its own code, the holder of
      a pointer can, by swapping it in again and again, run it to its end. */
  lemma {:induction false} RunsToItsEnd(s: Sys, t: Tid, f: Ref)
    returns (cs: seq<Command>)
    requires Inv(s) && CanDrive(s, t, f)
    ensures LegalRun(s, cs) && Good(Run(s, cs)) && forall c :: c in cs ==> c == SwapIn(t, f) || c == Act(t)
    ensures var s' := Run(s, cs).s;
            CanDrive(s', t, f) && Ended(s'.heap[f]) && s'.heap[f].prog == s.heap[f].prog
    decreases Yields(s.heap[f].prog) + 1 - s.heap[f].swaps
  {
    hide Inv, Step, Legal, Progress, Yields;
    Drivable(s, t, f);
    if Ended(s.heap[f]) {
      cs := [];
    } else {
      var first := OneMoreBurst(s, t, f);
      var s1 := Run(s, first).s;
      Drivable(s1, t, f);
      var rest := RunsToItsEnd(s1, t, f);
      RunConcat(s, first, rest);
      cs := first + rest;
    }
  }

  // ---------- A script and the script without its yields ----------

  /** The work a script does, in order. */
  function Works(script: Script): seq<int> {
    if script == [] then []
    else (if script[0].Work? then [script[0].n] else []) + Works(script[1..])
  }

  function WithoutYields(script: Script): Script {
    if script == [] then []
    else (if script[0] in {YieldHold, YieldReady} then [] else [script[0]]) + WithoutYields(script[1..])
  }

  lemma {:induction false} WithoutYieldsAppend(a: Script, b: Script)
    ensures WithoutYields(a + b) == WithoutYields(a) + WithoutYields(b)
  {
    if a == [] {
      assert a + b == b;
    } else {
      assert (a + b)[1..] == a[1..] + b;
      WithoutYieldsAppend(a[1..], b);
    }
  }

  lemma {:induction false} WithoutYieldsIs(script: Script)
    ensures Works(WithoutYields(script)) == Works(script)
    ensures Yields(WithoutYields(script)) == 0
    ensures NoThrow(WithoutYields(script)) <==> NoThrow(script)
  {
    if script == [] {
    } else {
      var rest := WithoutYields(script[1..]);
      WithoutYieldsIs(script[1..]);
      assert script == [script[0]] + script[1..];
      if script[0] in {YieldHold, YieldReady} {
        assert WithoutYields(script) == rest;
      } else {
        assert WithoutYields(script) == [script[0]] + rest;
        assert WithoutYields(script)[1..] == rest;
        YieldsAppend([script[0]], rest);
        assert [script[0]][..0] == [];
      }
    }
  }

  predicate Ended(r: Fiber) { r.state == TERM || r.state == EXCEP }

  /** Two records at their ends, one of them of the script without yields. */
  lemma SameEnd(r: Fiber, q: Fiber)
    requires Progress(r) && Progress(q) && Ended(r) && Ended(q) && q.prog == WithoutYields(r.prog)
    ensures q.state == r.state && q.log == WithoutYields(r.log)
  {
    hide Yields, WithoutYields;
    WithoutYieldsIs(r.prog);
    if r.state == EXCEP {
      var a := r.log[..|r.log| - 1];
      var w := WithoutYields(a);
      assert r.log == a + [Throw] && r.prog == r.log + r.prog[|r.log|..];
      WithoutYieldsAppend(a, [Throw]);
      WithoutYieldsAppend(r.log, r.prog[|r.log|..]);
      WithoutYieldsIs(a);
      assert WithoutYields([Throw]) == [Throw] by { ThrowStays(); }
      assert WithoutYields(r.log) == w + [Throw] && w + [Throw] <= q.prog;
      assert q.prog[|w|] == Throw;
      assert q.state == EXCEP;
      FirstThrow(q.prog, w, q.log[..|q.log| - 1]);
      assert q.log == q.log[..|q.log| - 1] + [Throw];
    }
  }

  lemma ThrowStays()
    ensures WithoutYields([Throw]) == [Throw]
  {
    assert [Throw][1..] == [];
  }

  lemma FirstThrow(script: Script, a: Script, b: Script)
    requires a + [Throw] <= script && b + [Throw] <= script && NoThrow(a) && NoThrow(b)
    ensures a == b
  {
    assert script[|a|] == (a + [Throw])[|a|] && script[|b|] == (b + [Throw])[|b|];
    assert forall i | 0 <= i < |a| :: script[i] == (a + [Throw])[i] == a[i] && a[i] in a;
    assert forall i | 0 <= i < |b| :: script[i] == (b + [Throw])[i] == b[i] && b[i] in b;
    assert a == script[..|a|] && b == script[..|b|];
  }

  /** A callback without yields is done in one burst: however other commands
      interleave, by the time it has taken its actions and returned, its first
      swapIn has returned too, and it has terminated, or ended with its exception. */
  lemma OneBurst(s: Sys, t: Tid, g: Ref, cs: seq<Command>)
    returns (k: nat)
    requires Inv(s) && Legal(s, SwapIn(t, g)) && s.heap[g].state == INIT && Yields(s.heap[g].prog) == 0
    requires LegalRun(s, [SwapIn(t, g)] + cs) && |s.heap[g].prog| < Count(t, cs)
    ensures k <= |cs| && Count(t, cs[..k]) <= |s.heap[g].prog| + 1
    ensures var o := Run(s, [SwapIn(t, g)] + cs[..k]);
            && Good(o) && t in o.s.threads && o.s.threads[t].exec.stack == OnThread
            && g in o.s.heap && o.s.heap[g].stack && o.s.heap[g].prog == s.heap[g].prog
            && Ended(o.s.heap[g]) && o.s.heap[g].swaps == 1
  {
    hide Inv, Step, Progress, Legal;
    SwapStarts(s, t, g);
    NeedsThread(s, SwapIn(t, g));
    var s1 := Step(s, SwapIn(t, g)).s;
    assert ([SwapIn(t, g)] + cs)[1..] == cs;
    k := BurstEnds(s1, t, cs);
    assert ([SwapIn(t, g)] + cs[..k])[1..] == cs[..k];
    EndedAfter(Run(s1, cs[..k]).s, t, g);
  }

  lemma SwapStarts(s: Sys, t: Tid, g: Ref)
    requires Inv(s) && Legal(s, SwapIn(t, g))
    ensures Good(Step(s, SwapIn(t, g)))
    ensures var s' := Step(s, SwapIn(t, g)).s;
            && Legal(s', Act(t)) && t in s'.threads && s'.threads[t].exec.stack == OnFiber(g)
            && s'.threads[t].last == s.threads[t].last && s'.threads[t].last.Some?
            && g in s'.heap && s'.heap[g].swaps == s.heap[g].swaps + 1
            && s'.heap[g].prog == s.heap[g].prog && s'.heap[g].log == s.heap[g].log
            && s'.heap[g].stack && s'.heap[g].owner == t && s'.heap[g].handles == s.heap[g].handles
    ensures s.heap[g].state == INIT ==> s.heap[g].swaps == 0 && s.heap[g].log == []
  {
    hide Inv, StepSwapIn;
    SwapInKeeps(s, t, g);
    SwapInResult(s, t, g);
    if s.heap[g].state == INIT {
      NotStarted(s, g);
    }
  }

  lemma NotStarted(s: Sys, g: Ref)
    requires Inv(s) && g in s.heap && s.heap[g].stack && s.heap[g].state == INIT
    ensures s.heap[g].swaps == 0 && s.heap[g].log == []
  {
    hide IdsOk, ThreadsOk;
    assert FiberOkIn(s, g);
  }

  lemma EndedAfter(s: Sys, t: Tid, g: Ref)
    requires Inv(s) && t in s.threads && s.threads[t].exec.stack == OnThread
    requires g in s.heap && s.heap[g].stack && s.heap[g].owner == t && s.heap[g].swaps == 1 &&
               Yields(s.heap[g].prog) == 0
    ensures Ended(s.heap[g]) && Progress(s.heap[g])
  {
    hide IdsOk, ThreadsOk, SavedRight;
    assert FiberOkIn(s, g);
    PrefixYields(s.heap[g].log, s.heap[g].prog);
  }

  /** However the run of a fiber that has ended was cut up by yields, and whatever
      runs beside: in any state, a fiber whose callback is the same without them,
      that has been swapped in and is not running, has ended the same way, has
      done the same work, and has done it all after its first swapIn. */
  lemma SameWork(s: Sys, f: Ref, s2: Sys, g: Ref)
    requires Reachable(s) && f in s.heap && s.heap[f].stack && Ended(s.heap[f])
    requires Inv(s2) && g in s2.heap && s2.heap[g].stack && s2.heap[g].prog == WithoutYields(s.heap[f].prog)
    requires s2.heap[g].swaps > 0 && s2.heap[g].state != EXEC
    ensures s2.heap[g].state == s.heap[f].state && s2.heap[g].swaps == 1
    ensures s2.heap[g].log == WithoutYields(s.heap[f].log)
    ensures Works(s2.heap[g].log) == Works(s.heap[f].log)
  {
    hide Reachable, Inv, WithoutYields, Works, Yields;
    WithoutYieldsIs(s.heap[f].prog);
    WithoutYieldsIs(s.heap[f].log);
    ReachableInv(s);
    ProgressIn(s, f);
    ProgressIn(s2, g);
    PrefixYields(s2.heap[g].log, s2.heap[g].prog);
    assert Ended(s2.heap[g]) by { NotYielded(s2.heap[g]); }
    SameEnd(s.heap[f], s2.heap[g]);
  }

  lemma NotYielded(r: Fiber)
    requires Progress(r) && Yields(r.log) == 0 && r.swaps > 0 && r.state != EXEC
    ensures Ended(r) && r.swaps == 1
  {
  }

  lemma ProgressIn(s: Sys, f: Ref)
    requires Inv(s) && f in s.heap && s.heap[f].stack
    ensures Progress(s.heap[f])
  {
    hide IdsOk, ThreadsOk;
    assert FiberOkIn(s, f);
  }
}

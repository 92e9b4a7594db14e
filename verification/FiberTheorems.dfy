/** What the invariant means for the users of fibers: reference counts, the
    current fiber, the order of a callback's actions, ids and counters. */
module FiberTheorems {
  import opened FiberMachine
  import opened FiberSafety
  import opened Options

  ghost predicate Reachable(s: Sys) {
    exists s0, cs :: Initial(s0) && LegalRun(s0, cs) && Run(s0, cs) == Ok(s)
  }

  lemma ReachableInv(s: Sys)
    requires Reachable(s)
    ensures Inv(s)
  {
    hide Inv, Run, LegalRun;
    var s0, cs :| Initial(s0) && LegalRun(s0, cs) && Run(s0, cs) == Ok(s);
    InitialInv(s0);
    RunsAreSafe(s0, cs);
  }

  /** From any reachable state, no legal continuation faults. */
  lemma NoFault(s: Sys, cs: seq<Command>)
    requires Reachable(s) && LegalRun(s, cs)
    ensures Run(s, cs).Ok?
  {
    hide Inv, Run, LegalRun;
    ReachableInv(s);
    RunsAreSafe(s, cs);
  }

  /** A fiber's count is its outside pointers plus those in the library's own
      frames: two while it is suspended, one while its callback runs, none
      before its start and after its end. So at rest, when reset rewrites its
      stack or the destructor frees it, nothing lives there. */
  lemma ReferenceCount(s: Sys, f: Ref)
    requires Reachable(s) && f in s.heap && s.heap[f].stack
    ensures var r := s.heap[f];
            r.refs == r.handles + match r.state {
              case HOLD => 2
              case READY => 2
              case EXEC => 1
              case _ => 0
            }
    ensures Restartable(s.heap[f].state) ==>
              && !StackInUse(s, f) && !s.heap[f].ctx.point.AfterYield? && !s.heap[f].ctx.point.UserCode?
              && forall t :: t in s.threads ==>
                   s.threads[t].exec.stack != OnFiber(f) && (s.threads[t].cur != Some(f) || s.threads[t].exited)
  {
    hide Reachable, IdsOk, Progress;
    ReachableInv(s);
    assert FiberOkIn(s, f);
    if Restartable(s.heap[f].state) {
      forall t | t in s.threads
        ensures s.threads[t].exec.stack != OnFiber(f) && (s.threads[t].cur != Some(f) || s.threads[t].exited)
      {
        assert ThreadOk(s, t);
        NotReferred(s, t, f);
      }
    }
  }

  /** A fiber is destroyed only where its last shared pointer goes: one outside
      the library, or a thread's own to its main fiber as the thread ends. Then
      the destructor's assertions hold, its stack is used by nobody, and no live
      thread still takes it for the current fiber. */
  lemma Destroyed(s: Sys, c: Command, f: Ref)
    requires Reachable(s) && Legal(s, c) && f in s.heap
    requires Step(s, c).Ok? ==> f !in Step(s, c).s.heap
    ensures Good(Step(s, c)) && s.heap[f].refs == 1
    ensures c == Drop(c.t, f) || (c == Exit(c.t) && s.threads[c.t].last == Some(f))
    ensures if s.heap[f].stack then Restartable(s.heap[f].state) && !StackInUse(s, f)
            else s.heap[f].cb == None && s.heap[f].state == EXEC
    ensures forall u :: u in Step(s, c).s.threads && !Step(s, c).s.threads[u].exited ==>
              Step(s, c).s.threads[u].cur != Some(f)
    ensures c.t in Step(s, c).s.threads && Step(s, c).s.threads[c.t].cur != Some(f)
  {
    hide Reachable, Inv;
    ReachableInv(s);
    StepKeeps(s, c);
    OnlyDropAndExitDestroy(s, c, f);
    if c.Drop? {
      DroppedOk(s, c.t, f);
      DestructorAsserts(s, c.t, f);
      if s.heap[f].stack {
        NoneInUse(s, f);
      }
    } else {
      ExitResult(s, c.t);
      CanExit(s, c.t);
    }
    NobodyIsOn(Step(s, c).s, f);
  }

  lemma NobodyIsOn(s: Sys, f: Ref)
    requires Inv(s) && f !in s.heap
    ensures forall u :: u in s.threads && !s.threads[u].exited ==> s.threads[u].cur != Some(f)
  {
    hide FibersOk, IdsOk;
    forall u | u in s.threads && !s.threads[u].exited ensures s.threads[u].cur != Some(f) {
      assert ThreadOk(s, u);
    }
  }

  lemma OnlyDropAndExitDestroy(s: Sys, c: Command, f: Ref)
    requires Inv(s) && Legal(s, c) && Step(s, c).Ok? && f in s.heap && f !in Step(s, c).s.heap
    ensures (c == Drop(c.t, f) && s.heap[f].refs == 1)
         || (c == Exit(c.t) && s.threads[c.t].last == Some(f) && s.heap[f].refs == 1)
  {
    hide Inv, StepSwapIn, StepAct, StepExit;
    match c
    case GetThis(_) =>
    case NewBegin(_) =>
    case NewEnd(_, _) =>
    case SwapIn(t, g) => SwapInResult(s, t, g);
    case Act(t) => ActResult(s, t);
    case Reset(_, _, _) =>
    case Copy(_, _) =>
    case Drop(t, g) => DroppedOk(s, t, g);
    case Exit(t) =>
      ExitResult(s, t);
      if s.threads[t].last.Some? {
        CanExit(s, t);
        StillReferred(s, s.threads[t].last.value);
      }
  }

  lemma StillReferred(s: Sys, m: Ref)
    requires Inv(s) && m in s.heap
    ensures s.heap[m].refs > 0
  {
    hide IdsOk, ThreadsOk, Progress, SavedRight;
    assert FiberOkIn(s, m);
  }

  /** The fiber a live thread takes for the current one is the one whose stack
      it executes: the main fiber on the thread's own stack, a callback fiber on
      that fiber's stack. The main fiber stays EXEC; another fiber of the thread
      is EXEC exactly when it is current; and where a fiber runs there is a main
      fiber to swap back to. */
  lemma CurrentFiber(s: Sys, t: Tid)
    requires Reachable(s) && t in s.threads && !s.threads[t].exited
    ensures var th := s.threads[t];
            && (th.cur.Some? ==> th.cur.value in s.heap && s.heap[th.cur.value].state == EXEC)
            && (forall f :: f in s.heap && s.heap[f].owner == t && s.heap[f].stack ==>
                  (s.heap[f].state == EXEC <==> th.cur == Some(f)))
            && match th.exec.stack {
                 case OnThread => th.cur == th.last && (th.cur.Some? ==> !s.heap[th.cur.value].stack)
                 case OnFiber(f) => th.cur == Some(f) && f in s.heap && s.heap[f].stack && th.last.Some?
               }
  {
    hide Reachable, IdsOk, Progress, SavedRight;
    ReachableInv(s);
    assert ThreadOk(s, t);
    var th := s.threads[t];
    if th.cur.Some? {
      assert FiberOkIn(s, th.cur.value);
    }
    forall f | f in s.heap && s.heap[f].owner == t && s.heap[f].stack
      ensures s.heap[f].state == EXEC <==> th.cur == Some(f)
    {
      assert FiberOkIn(s, f);
    }
  }

  /** GetThis, in a callback, copies the pointer to the fiber whose stack executes;
      in the thread's own code that to its main fiber, which the first call makes:
      EXEC, with id 0, with the thread's own pointer to it and the one returned. */
  lemma GetThisIs(s: Sys, t: Tid)
    requires Reachable(s) && Legal(s, GetThis(t))
    ensures Good(Step(s, GetThis(t)))
    ensures var s', th := Step(s, GetThis(t)).s, s.threads[t];
            match th.exec.stack {
              case OnFiber(f) => Copied(s, s', f) && s.heap[f].stack
              case OnThread =>
                if th.last.Some? then Copied(s, s', th.last.value)
                else
                  var m := s.nextRef;
                  && m !in s.heap && s'.heap.Keys == s.heap.Keys + {m}
                  && (forall f :: f in s.heap ==> s'.heap[f] == s.heap[f])
                  && !s'.heap[m].stack && s'.heap[m].cb == None && s'.heap[m].state == EXEC && s'.heap[m].id == 0
                  && s'.heap[m].owner == t && s'.heap[m].refs == 2 && s'.heap[m].handles == 1
                  && s'.threads == s.threads[t := th.(cur := Some(m), last := Some(m))]
                  && s'.fiberCount == s.fiberCount + 1 && s'.fiberId == s.fiberId
            }
  {
    hide Reachable, Inv;
    ReachableInv(s);
    StepKeeps(s, GetThis(t));
    WhereItRuns(s, t);
  }

  /** One more pointer to `f` outside the library, and nothing else. */
  predicate Copied(s: Sys, s': Sys, f: Ref) {
    && f in s.heap && f in s'.heap
    && s'.heap[f].handles == s.heap[f].handles + 1 && s'.heap[f].refs == s.heap[f].refs + 1
    && s'.heap[f] == s.heap[f].(refs := s'.heap[f].refs, handles := s'.heap[f].handles)
    && s'.heap == s.heap[f := s'.heap[f]] && s' == s.(heap := s'.heap)
  }

  lemma WhereItRuns(s: Sys, t: Tid)
    requires Inv(s) && t in s.threads && !s.threads[t].exited
    ensures var th := s.threads[t];
            match th.exec.stack {
              case OnThread => th.cur == th.last && (th.cur.Some? ==> th.cur.value in s.heap)
              case OnFiber(f) => th.cur == Some(f) && f in s.heap && s.heap[f].stack
            }
    ensures s.nextRef !in s.heap
  {
    hide IdsOk, FiberOk;
    assert ThreadOk(s, t);
    NextRefFresh(s);
  }

  /** Dropping a pointer takes one from the fiber's count, and with the last one the
      fiber is gone; nothing else happens. */
  lemma DropIs(s: Sys, t: Tid, f: Ref)
    requires Reachable(s) && Legal(s, Drop(t, f))
    ensures Good(Step(s, Drop(t, f))) && s.heap[f].refs > 0
    ensures var s', r := Step(s, Drop(t, f)).s, s.heap[f];
            if r.refs == 1
            then s' == s.(heap := s.heap - {f}, fiberCount := s.fiberCount - 1)
            else s' == s.(heap := s.heap[f := r.(refs := r.refs - 1, handles := r.handles - 1)])
  {
    hide Reachable, Inv;
    ReachableInv(s);
    StepKeeps(s, Drop(t, f));
    DroppedOk(s, t, f);
    if s.heap[f].refs == 1 {
      NotItsCurrent(s, t, f);
      assert s.heap[f := s.heap[f].(handles := s.heap[f].handles - 1)]
              [f := s.heap[f].(handles := s.heap[f].handles - 1, refs := 0)] - {f} == s.heap - {f};
    } else {
      TwiceSet(s, f, s.heap[f].(handles := s.heap[f].handles - 1),
               s.heap[f].(handles := s.heap[f].handles - 1, refs := s.heap[f].refs - 1));
    }
  }

  lemma NotItsCurrent(s: Sys, t: Tid, f: Ref)
    requires Inv(s) && Legal(s, Drop(t, f)) && s.heap[f].refs == 1
    ensures s.threads[t].cur != Some(f)
  {
    hide IdsOk, Progress, SavedRight;
    assert ThreadOk(s, t) && FiberOkIn(s, f);
  }

  /** A thread that ends gives up its pointer to its main fiber, which is gone with
      it where no other is left; then nothing is the thread's current fiber. */
  lemma ThreadEnd(s: Sys, t: Tid)
    requires Reachable(s) && Legal(s, Exit(t))
    ensures Good(Step(s, Exit(t)))
    ensures var s', th := Step(s, Exit(t)).s, s.threads[t];
            if th.last.None? then s' == s.(threads := s.threads[t := th.(exited := true)])
            else
              var m := th.last.value;
              && m in s.heap && s.heap[m].refs > 0
              && if s.heap[m].refs == 1
                 then s'.heap == s.heap - {m} && s'.fiberCount == s.fiberCount - 1
                      && s'.threads == s.threads[t := th.(last := None, cur := None, exited := true)]
                 else s'.heap == s.heap[m := s.heap[m].(refs := s.heap[m].refs - 1)] && s'.fiberCount == s.fiberCount
                      && s'.threads == s.threads[t := th.(last := None, exited := true)]
  {
    hide Reachable, Inv;
    ReachableInv(s);
    StepKeeps(s, Exit(t));
    ExitResult(s, t);
    if s.threads[t].last.Some? {
      CanExit(s, t);
    }
  }

  // ---------- The order of a callback's actions ----------

  lemma {:induction false} YieldsAppend(a: Script, b: Script)
    ensures Yields(a + b) == Yields(a) + Yields(b)
  {
    if b == [] {
      assert a + b == a;
    } else {
      assert (a + b)[..|a + b| - 1] == a + b[..|b| - 1];
      YieldsAppend(a, b[..|b| - 1]);
    }
  }

  lemma PrefixYields(a: Script, b: Script)
    requires a <= b
    ensures Yields(a) <= Yields(b)
  {
    YieldsAppend(a, b[|a|..]);
    assert b == a + b[|a|..];
  }

  /** A callback's executed actions are always the beginning of its script, and
      all of it once the fiber has terminated; a fiber that waits has yielded last,
      to HOLD or to READY as its state says; a script of k yields that does not
      throw terminates on its (k+1)-th swapIn, no earlier and no later; and one
      that throws ends with that throw, on the swapIn after as many yields as it
      got through. */
  lemma ScriptOrder(s: Sys, f: Ref)
    requires Reachable(s) && f in s.heap && s.heap[f].stack
    ensures var r := s.heap[f];
            && r.log <= r.prog
            && (r.state == INIT ==> r.log == [] && r.swaps == 0)
            && (r.state == HOLD ==> r.log != [] && r.log[|r.log| - 1] == YieldHold)
            && (r.state == READY ==> r.log != [] && r.log[|r.log| - 1] == YieldReady)
            && (r.state == TERM ==> r.log == r.prog)
            && r.cb == (if r.state == TERM then None else Some(r.prog))
            && (r.state == EXCEP ==>
                  r.log != [] && r.log[|r.log| - 1] == Throw && NoThrow(r.log[..|r.log| - 1]) &&
                      r.swaps == Yields(r.log) + 1)
            && (NoThrow(r.prog) && r.state != EXEC ==> (r.state == TERM <==> r.swaps == Yields(r.prog) + 1))
            && (NoThrow(r.prog) ==> r.swaps <= Yields(r.prog) + 1)
  {
    hide Reachable, IdsOk, ThreadsOk, SavedRight;
    ReachableInv(s);
    assert FiberOkIn(s, f);
    var r := s.heap[f];
    PrefixYields(r.log, r.prog);
  }

  /** An action of a running callback is the next one of its script. Unless it
      is work, it brings the thread back to its own code, at the return of the
      swapIn call that started the burst, with its main fiber current. The fiber is
      left in the state that the action asks for. */
  lemma MainResumes(s: Sys, t: Tid)
    requires Reachable(s) && Legal(s, Act(t))
    ensures Step(s, Act(t)).Ok?
    ensures var s', f := Step(s, Act(t)).s, s.threads[t].exec.stack.f;
            && f in s.heap && f in s'.heap && t in s'.threads && s.threads[t].call.Some?
            && s.heap[f].log <= s.heap[f].prog
            && s'.heap[f].log == (if s.heap[f].log == s.heap[f].prog then s.heap[f].log
                                  else s.heap[f].log + [s.heap[f].prog[|s.heap[f].log|]])
            && var th, th' := s.threads[t], s'.threads[t];
            if |s.heap[f].log| < |s.heap[f].prog| && s.heap[f].prog[|s.heap[f].log|].Work?
            then th'.exec.stack == OnFiber(f) && th'.call == th.call && th'.cur == Some(f)
            else th'.exec == Ctx(OnThread, MainCode(th.call.value.back)) && th'.call == None && th'.cur == th.last
    ensures var r, r' := s.heap[s.threads[t].exec.stack.f], Step(s, Act(t)).s.heap[s.threads[t].exec.stack.f];
            r'.state == if r.log == r.prog then TERM
                        else match r.prog[|r.log|] {
                          case Work(_) => EXEC
                          case YieldHold => HOLD
                          case YieldReady => READY
                          case Throw => EXCEP
                        }
  {
    hide Reachable, Inv;
    ReachableInv(s);
    CanAct(s, t);
    ActResult(s, t);
    ActKeeps(s, t);
    var r := s.heap[s.threads[t].exec.stack.f];
    assert |r.log| == |r.prog| ==> r.log == r.prog;
  }

  // ---------- Counters and ids ----------

  function CurFiberId(s: Sys, t: Tid): nat
    requires t in s.threads && (s.threads[t].cur.Some? ==> s.threads[t].cur.value in s.heap)
  {
    if s.threads[t].cur.Some? then s.heap[s.threads[t].cur.value].id else 0
  }

  /** Under any interleaving the fiber count is the number of live fibers, main
      fibers included; the ids of callback fibers are distinct and lie between 1
      and the id counter; and the id a live thread is told is that of the fiber
      whose stack it executes, and 0 in its own code. */
  lemma CountersAndIds(s: Sys)
    requires Reachable(s)
    ensures s.fiberCount == |s.heap|
    ensures forall f :: f in s.heap && s.heap[f].stack ==> 1 <= s.heap[f].id <= s.fiberId
    ensures forall f, g :: f in s.heap && g in s.heap && s.heap[f].stack && s.heap[g].stack && f != g ==>
              s.heap[f].id != s.heap[g].id
    ensures forall t :: t in s.threads && !s.threads[t].exited ==>
              && (s.threads[t].cur.Some? ==> s.threads[t].cur.value in s.heap)
              && (CurFiberId(s, t) == 0 <==> s.threads[t].cur.None? || s.threads[t].cur == s.threads[t].last)
              && match s.threads[t].exec.stack {
                   case OnThread => CurFiberId(s, t) == 0
                   case OnFiber(f) => f in s.heap && CurFiberId(s, t) == s.heap[f].id > 0
                 }
  {
    hide Reachable, FiberOk;
    ReachableInv(s);
    forall t | t in s.threads && !s.threads[t].exited
      ensures s.threads[t].cur.Some? ==> s.threads[t].cur.value in s.heap
      ensures CurFiberId(s, t) == 0 <==> s.threads[t].cur.None? || s.threads[t].cur == s.threads[t].last
      ensures match s.threads[t].exec.stack {
                case OnThread => CurFiberId(s, t) == 0
                case OnFiber(f) => f in s.heap && CurFiberId(s, t) == s.heap[f].id > 0
              }
    {
      assert ThreadOk(s, t);
    }
  }

  // ---------- What the usage rule leaves out ----------

  /** The holder of a pointer may reset a fiber exactly where the assertions of reset
      hold: a callback fiber that has not started or has ended. */
  lemma ResetLegalIff(s: Sys, t: Tid, f: Ref, script: Script)
    requires Reachable(s) && t in s.threads && !s.threads[t].exited && s.threads[t].pending.None? && Held(s, f)
    ensures Legal(s, Reset(t, f, script)) <==> Step(s, Reset(t, f, script)).Ok?
    ensures Legal(s, Reset(t, f, script)) <==>
            s.heap[f].stack && (s.heap[f].state == INIT || s.heap[f].state == TERM || s.heap[f].state == EXCEP)
  {
  }

  // ---------- Why swapIn must come from the main fiber ----------

  /** If the callback of a running fiber `f` calls swapIn itself, on any other
      fiber `g` of its thread that could run, no assertion stops it, and the way
      back to the thread's own code is overwritten by the way back to `f`. */
  lemma NestedSwapInLosesMain(s: Sys, t: Tid, g: Ref)
    requires Reachable(s) && Legal(s, Act(t))
    requires Held(s, g) && s.heap[g].stack && s.heap[g].owner == t
    requires s.heap[g].state == INIT || s.heap[g].state == HOLD || s.heap[g].state == READY
    ensures !Legal(s, SwapIn(t, g)) && Step(s, SwapIn(t, g)).Ok?
    ensures var s', f := Step(s, SwapIn(t, g)).s, s.threads[t].exec.stack.f;
            && t in s'.threads && s'.threads[t].exec.stack == OnFiber(g)
            && s'.threads[t].last == s.threads[t].last && s.threads[t].last.Some?
            && var m := s.threads[t].last.value;
               m in s.heap && m in s'.heap && s.heap[m].ctx.stack == OnThread && s'.heap[m].ctx.stack == OnFiber(f)
    ensures !Inv(Step(s, SwapIn(t, g)).s)
  {
    hide Reachable, Release, Inv;
    ReachableInv(s);
    CanAct(s, t);
    AtRest(s, g);
    var f, m := s.threads[t].exec.stack.f, s.threads[t].last.value;
    var s1 := SetFiber(SetFiber(s, g, s.heap[g].(state := EXEC, swaps := s.heap[g].swaps + 1)), m,
                       s.heap[m].(ctx := s.threads[t].exec));
    var s2 := SetThread(SetThread(s1, t, s.threads[t].(cur := Some(g))), t,
                        s.threads[t].(cur := Some(g), exec := s.heap[g].ctx));
    assert Step(s, SwapIn(t, g)) == Resume(s2, t);
    if s.heap[g].state != INIT {
      ReleaseOne(SetThread(s2, t, s2.threads[t].(exec := Ctx(OnFiber(g), UserCode(g, |s.heap[g].log|)))), t, g);
    }
    LostWayBack(Step(s, SwapIn(t, g)).s, t);
  }

  lemma AtRest(s: Sys, g: Ref)
    requires Inv(s) && g in s.heap && s.heap[g].stack
    requires s.heap[g].state == INIT || s.heap[g].state == HOLD || s.heap[g].state == READY
    ensures s.heap[g].ctx == Ctx(OnFiber(g),
              if s.heap[g].state == INIT then Entry else AfterYield(g, g, |s.heap[g].log|))
    ensures s.heap[g].state != INIT ==> s.heap[g].refs > 1
  {
    hide IdsOk, ThreadsOk;
    assert FiberOkIn(s, g);
  }

  lemma ReleaseOne(s: Sys, t: Tid, f: Ref)
    requires t in s.threads && f in s.heap && s.heap[f].refs > 1
    ensures Release(s, t, f) == Ok(SetFiber(s, f, s.heap[f].(refs := s.heap[f].refs - 1)))
  {
  }

  lemma LostWayBack(s: Sys, t: Tid)
    requires t in s.threads && s.threads[t].exec.stack.OnFiber? && s.threads[t].last.Some?
    requires s.threads[t].last.value in s.heap && s.heap[s.threads[t].last.value].ctx.stack != OnThread
    ensures !Inv(s)
  {
    hide IdsOk, FibersOk;
    assert ThreadsOk(s) ==> ThreadOk(s, t);
  }
}

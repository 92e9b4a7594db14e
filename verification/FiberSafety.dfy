/** What every reachable state of the fiber machine satisfies, and that no run
    within the usage rule ever faults. */
module FiberSafety {
  import opened FiberMachine
  import opened Options

  predicate NoThrow(script: Script) { Throw !in script }

  function Yields(script: Script): nat {
    if script == [] then 0
    else Yields(script[..|script| - 1]) + if script[|script| - 1] in {YieldHold, YieldReady} then 1 else 0
  }

  /** The shared pointers in the library's own frames: MainFunc's and the
      yield's while suspended, MainFunc's while the callback runs. */
  function FrameRefs(st: State): nat {
    match st
    case HOLD => 2
    case READY => 2
    case EXEC => 1
    case _ => 0
  }

  /** How far a callback is, by the state of its fiber. */
  predicate Progress(r: Fiber) {
    && r.log <= r.prog
    && match r.state {
      case INIT => r.log == [] && r.swaps == 0
      case EXEC => NoThrow(r.log) && r.swaps == Yields(r.log) + 1
      case HOLD => r.log != [] && r.log[|r.log| - 1] == YieldHold && NoThrow(r.log) && r.swaps == Yields(r.log)
      case READY => r.log != [] && r.log[|r.log| - 1] == YieldReady && NoThrow(r.log) && r.swaps == Yields(r.log)
      case TERM => r.log == r.prog && NoThrow(r.log) && r.swaps == Yields(r.log) + 1
      case EXCEP =>
        && r.log != [] && r.log[|r.log| - 1] == Throw && NoThrow(r.log[..|r.log| - 1])
        && r.swaps == Yields(r.log) + 1
    }
  }

  /** The context of a fiber that is not running leads back to its own stack, to
      exactly the point its state stands for. */
  predicate SavedRight(f: Ref, r: Fiber) {
    match r.state
    case INIT => r.ctx == Ctx(OnFiber(f), Entry)
    case HOLD => r.ctx == Ctx(OnFiber(f), AfterYield(f, f, |r.log|))
    case READY => r.ctx == Ctx(OnFiber(f), AfterYield(f, f, |r.log|))
    case TERM => r.ctx.point == Entry || r.ctx.point == AfterLast
    case EXCEP => r.ctx.point == Entry || r.ctx.point == AfterLast
    case EXEC => true
  }

  /** Every context ever saved for a callback fiber, or made for it, is on its
      own stack, and the pointers there are to itself. */
  predicate OwnCtx(f: Ref, c: Ctx) {
    && c.stack == OnFiber(f)
    && match c.point {
      case Entry => true
      case AfterLast => true
      case AfterYield(self, cur, _) => self == cur == f
      case _ => false
    }
  }

  /** A callback fiber, given its thread. */
  predicate CallbackOk(f: Ref, r: Fiber, th: Thread) {
    && r.refs == r.handles + FrameRefs(r.state) && r.refs > 0
    && Progress(r) && SavedRight(f, r) && OwnCtx(f, r.ctx)
    && (r.state == TERM ==> r.cb == None)
    && (r.state != TERM ==> r.cb == Some(r.prog))
    && (r.state == EXEC <==> th.exec.stack == OnFiber(f))
    && (r.state == EXEC ==> th.exec.point == UserCode(f, |r.log|) && r.handles > 0)
  }

  /** A main fiber, given its thread. */
  predicate MainOk(m: Ref, r: Fiber, th: Thread) {
    && r.cb == None && r.state == EXEC && r.ctx.stack == OnThread && r.ctx.point.MainCode?
    && r.refs == r.handles + (if th.last == Some(m) then 1 else 0) && r.refs > 0
  }

  predicate FiberOk(f: Ref, r: Fiber, th: Thread) {
    if r.stack then CallbackOk(f, r, th) else MainOk(f, r, th)
  }

  /** The two pointers of a thread against the stack it really executes. */
  predicate ThreadOk(s: Sys, t: Tid)
    requires t in s.threads
  {
    var th := s.threads[t];
    && (th.exited ==> th.last.None? && th.exec.stack == OnThread)
    && (!th.exited ==> (th.cur.None? <==> th.last.None?))
    && (th.last.Some? ==>
          && th.last.value in s.heap
          && !s.heap[th.last.value].stack && s.heap[th.last.value].owner == t)
    && match th.exec.stack {
      case OnThread =>
        && th.exec.point.MainCode? && th.call.None?
        && (!th.exited ==> th.cur == th.last)
      case OnFiber(f) =>
        && f in s.heap && s.heap[f].stack && s.heap[f].owner == t
        && th.cur == Some(f) && th.last.Some?
        && th.call.Some? && th.call.value.f == f
        && s.heap[th.last.value].ctx == Ctx(OnThread, MainCode(th.call.value.back))
    }
  }

  /** Ids drawn so far: below the counter, never twice. */
  predicate FiberIdsOk(s: Sys) {
    && (forall f :: f in s.heap ==> if s.heap[f].stack then 0 < s.heap[f].id <= s.fiberId else s.heap[f].id == 0)
    && (forall f, g :: f in s.heap && g in s.heap && s.heap[f].stack && s.heap[g].stack && f != g ==>
          s.heap[f].id != s.heap[g].id)
  }

  predicate PendingIdsOk(s: Sys) {
    && (forall t :: t in s.threads && s.threads[t].pending.Some? ==> 0 < s.threads[t].pending.value <= s.fiberId)
    && (forall t, u :: t in s.threads && u in s.threads && t != u && s.threads[t].pending.Some? ==>
          s.threads[t].pending != s.threads[u].pending)
  }

  predicate IdsApart(s: Sys) {
    forall t, f :: t in s.threads && f in s.heap && s.threads[t].pending.Some? ==>
      s.heap[f].id != s.threads[t].pending.value
  }

  predicate IdsOk(s: Sys) { FiberIdsOk(s) && PendingIdsOk(s) && IdsApart(s) }

  predicate FiberOkIn(s: Sys, f: Ref)
    requires f in s.heap
  {
    && f < s.nextRef && s.heap[f].owner in s.threads
    && FiberOk(f, s.heap[f], s.threads[s.heap[f].owner])
  }

  predicate FibersOk(s: Sys) {
    forall f :: f in s.heap ==> FiberOkIn(s, f)
  }

  predicate ThreadsOk(s: Sys) {
    forall t :: t in s.threads ==> ThreadOk(s, t)
  }

  ghost predicate Inv(s: Sys) {
    && FibersOk(s) && ThreadsOk(s) && IdsOk(s)
    && s.fiberCount == |s.heap|
  }

  ghost predicate Good(o: Outcome) { o.Ok? && Inv(o.s) }

  lemma InitialInv(s: Sys)
    requires Initial(s)
    ensures Inv(s)
  {
  }

  // ---------- What a change leaves alone ----------

  /** A thread's change that the fiber `f` of that thread does not notice. */
  predicate Neutral(f: Ref, th: Thread, th': Thread) {
    && (th.exec.stack == OnFiber(f) <==> th'.exec.stack == OnFiber(f))
    && (th.exec.stack == OnFiber(f) ==> th.exec == th'.exec)
    && (th.last == Some(f) <==> th'.last == Some(f))
  }

  lemma FiberOkFrame(f: Ref, r: Fiber, th: Thread, th': Thread)
    requires FiberOk(f, r, th) && Neutral(f, th, th')
    ensures FiberOk(f, r, th')
  {
  }

  /** The fiber `f` looks the same to a thread other than the running one. */
  predicate SameShape(s: Sys, s': Sys, f: Ref) {
    && f in s.heap && f in s'.heap
    && s'.heap[f].stack == s.heap[f].stack && s'.heap[f].owner == s.heap[f].owner
    && s'.heap[f].ctx == s.heap[f].ctx
  }

  predicate Refers(th: Thread, f: Ref) {
    th.last == Some(f) || th.exec.stack == OnFiber(f)
  }

  lemma ThreadOkFrame(s: Sys, s': Sys, u: Tid)
    requires u in s.threads && u in s'.threads && s'.threads[u] == s.threads[u]
    requires ThreadOk(s, u)
    requires forall f :: Refers(s.threads[u], f) ==> SameShape(s, s', f)
    ensures ThreadOk(s', u)
  {
    var th := s.threads[u];
    assert th.last.Some? ==> Refers(th, th.last.value);
    assert th.exec.stack.OnFiber? ==> Refers(th, th.exec.stack.f);
  }

  /** A step of thread `t` that changes that thread and the fibers in `d` only:
      it is enough to look at these. */
  ghost predicate Confined(s: Sys, s': Sys, t: Tid, d: set<Ref>) {
    && t in s.threads && t in s'.threads
    && s'.threads == s.threads[t := s'.threads[t]]
    && s.nextRef <= s'.nextRef
    && (forall f :: f !in d ==> (f in s.heap <==> f in s'.heap))
    && (forall f :: f !in d && f in s.heap ==> s'.heap[f] == s.heap[f])
    && (forall f :: f !in d && f in s.heap && s.heap[f].owner == t ==> Neutral(f, s.threads[t], s'.threads[t]))
    && (forall u, f :: u in s.threads && u != t && f in d && Refers(s.threads[u], f) ==> SameShape(s, s', f))
  }

  lemma Assemble(s: Sys, s': Sys, t: Tid, d: set<Ref>)
    requires FibersOk(s) && ThreadsOk(s) && Confined(s, s', t, d)
    requires forall f :: f in d && f in s'.heap ==> FiberOkIn(s', f)
    requires ThreadOk(s', t)
    ensures FibersOk(s') && ThreadsOk(s')
  {
    hide FiberOk, ThreadOk, Neutral, SameShape, Refers;
    forall f | f in s'.heap ensures FiberOkIn(s', f) {
      if f !in d {
        var u := s.heap[f].owner;
        if u == t {
          FiberOkFrame(f, s.heap[f], s.threads[t], s'.threads[t]);
        }
      }
    }
    forall u | u in s'.threads ensures ThreadOk(s', u) {
      if u != t {
        forall f | Refers(s.threads[u], f) ensures SameShape(s, s', f) {
          ReferenceLives(s, u, f);
          if f !in d {
            SameFields(s, s', f);
          }
        }
        ThreadOkFrame(s, s', u);
      }
    }
  }

  lemma ReferenceLives(s: Sys, u: Tid, f: Ref)
    requires u in s.threads && ThreadOk(s, u) && Refers(s.threads[u], f)
    ensures f in s.heap && s.heap[f].owner == u
  {
  }

  /** Ids are as good as before where no id is drawn and no fiber comes to life. */
  lemma IdsFrame(s: Sys, s': Sys)
    requires IdsOk(s) && s'.fiberId == s.fiberId
    requires forall f :: f in s'.heap ==> f in s.heap && s'.heap[f].id == s.heap[f].id
    requires forall f :: f in s'.heap ==> s'.heap[f].stack == s.heap[f].stack
    requires s'.threads.Keys == s.threads.Keys
    requires forall t :: t in s.threads ==> s'.threads[t].pending == s.threads[t].pending
    ensures IdsOk(s')
  {
  }

  lemma Conclude(s: Sys)
    requires FibersOk(s) && ThreadsOk(s) && IdsOk(s) && s.fiberCount == |s.heap|
    ensures Inv(s)
  {
  }

  lemma NextRefFresh(s: Sys)
    requires FibersOk(s) && ThreadsOk(s)
    ensures s.nextRef !in s.heap
    ensures forall u :: u in s.threads ==> !Refers(s.threads[u], s.nextRef)
  {
    hide FiberOk;
    assert s.nextRef in s.heap ==> FiberOkIn(s, s.nextRef);
    forall u | u in s.threads ensures !Refers(s.threads[u], s.nextRef) {
      assert ThreadOk(s, u);
    }
  }

  // ---------- Each step keeps the invariant ----------

  /** A step that rewrites one fiber's record and nothing else. */
  lemma RewriteFiber(s: Sys, f: Ref, r: Fiber)
    requires Inv(s) && f in s.heap
    requires r.owner == s.heap[f].owner && r.id == s.heap[f].id && r.stack == s.heap[f].stack
    requires FiberOk(f, r, s.threads[r.owner])
    requires r.ctx == s.heap[f].ctx || (r.stack && s.heap[f].state != EXEC)
    ensures Inv(SetFiber(s, f, r))
  {
    hide FiberOk, ThreadOk, IdsOk, Refers, SameShape, Neutral, Confined;
    var s' := SetFiber(s, f, r);
    var t := r.owner;
    RewriteShape(s, f, r);
    ThreadOkFrame(s, s', t);
    RewriteConfined(s, f, r);
    Assemble(s, s', t, {f});
    assert s'.heap.Keys == s.heap.Keys;
    IdsFrame(s, s');
    Conclude(s');
  }

  lemma RewriteShape(s: Sys, f: Ref, r: Fiber)
    requires Inv(s) && f in s.heap && r.owner == s.heap[f].owner && r.stack == s.heap[f].stack
    requires r.ctx == s.heap[f].ctx || (r.stack && s.heap[f].state != EXEC)
    ensures forall u, g :: u in s.threads && Refers(s.threads[u], g) ==> SameShape(s, SetFiber(s, f, r), g)
  {
    hide FiberOk, ThreadOk, IdsOk, Refers, SameShape;
    forall u, g | u in s.threads && Refers(s.threads[u], g) ensures SameShape(s, SetFiber(s, f, r), g) {
      ReferenceLives(s, u, g);
      if g == f && r.ctx != s.heap[f].ctx {
        NotReferred(s, u, f);
      } else {
        SameFields(s, SetFiber(s, f, r), g);
      }
    }
  }

  lemma RewriteConfined(s: Sys, f: Ref, r: Fiber)
    requires f in s.heap && r.owner in s.threads
    requires forall u, g :: u in s.threads && Refers(s.threads[u], g) ==> SameShape(s, SetFiber(s, f, r), g)
    ensures Confined(s, SetFiber(s, f, r), r.owner, {f})
  {
    hide SameShape, Refers;
  }

  lemma NeutralSelf(f: Ref, th: Thread)
    ensures Neutral(f, th, th)
  {
  }

  lemma SameFields(s: Sys, s': Sys, f: Ref)
    requires f in s.heap && f in s'.heap
    requires s'.heap[f].stack == s.heap[f].stack && s'.heap[f].owner == s.heap[f].owner &&
               s'.heap[f].ctx == s.heap[f].ctx
    ensures SameShape(s, s', f)
  {
  }

  lemma NotReferred(s: Sys, u: Tid, f: Ref)
    requires Inv(s) && u in s.threads && f in s.heap && s.heap[f].stack && s.heap[f].state != EXEC
    ensures !Refers(s.threads[u], f)
  {
    hide Progress, SavedRight, IdsOk;
    assert ThreadOk(s, u) && FiberOkIn(s, f);
  }

  lemma CopyKeeps(s: Sys, f: Ref)
    requires Inv(s) && f in s.heap && s.heap[f].handles > 0
    ensures Good(StepCopy(s, f))
  {
    hide IdsOk, ThreadsOk;
    assert FiberOkIn(s, f);
    var r := s.heap[f].(refs := s.heap[f].refs + 1, handles := s.heap[f].handles + 1);
    RewriteFiber(s, f, r);
  }

  lemma ResetKeeps(s: Sys, t: Tid, f: Ref, script: Script)
    requires Inv(s) && Legal(s, Reset(t, f, script))
    ensures Good(StepReset(s, f, script))
  {
    hide IdsOk, ThreadsOk;
    assert FiberOkIn(s, f);
    RewriteFiber(s, f, StepReset(s, f, script).s.heap[f]);
  }

  lemma NewBeginKeeps(s: Sys, t: Tid)
    requires Inv(s) && Legal(s, NewBegin(t))
    ensures Good(StepNewBegin(s, t))
  {
    hide FiberOk, ThreadOk, Neutral, IdsOk;
    var s' := StepNewBegin(s, t).s;
    forall f { NeutralThreads(f, s.threads[t], s'.threads[t]); }
    KeepThread(s, s', t);
    Assemble(s, s', t, {});
    DrawnIds(s, t);
    Conclude(s');
  }

  lemma DrawnIds(s: Sys, t: Tid)
    requires IdsOk(s) && t in s.threads
    ensures IdsOk(StepNewBegin(s, t).s)
  {
    var s' := StepNewBegin(s, t).s;
    assert FiberIdsOk(s');
    assert PendingIdsOk(s');
    forall u, f | u in s'.threads && f in s'.heap && s'.threads[u].pending.Some?
      ensures s'.heap[f].id != s'.threads[u].pending.value
    {
    }
  }

  lemma NeutralThreads(f: Ref, th: Thread, th': Thread)
    requires th.exec == th'.exec && th.last == th'.last
    ensures Neutral(f, th, th')
  {
  }

  /** A thread that changes nothing but its pending id. */
  lemma KeepThread(s: Sys, s': Sys, t: Tid)
    requires t in s.threads && ThreadOk(s, t) && t in s'.threads
    requires s'.threads[t] == s.threads[t].(pending := s'.threads[t].pending)
    requires forall f :: f in s.heap ==> f in s'.heap && s'.heap[f] == s.heap[f]
    ensures ThreadOk(s', t)
  {
  }

  lemma NewEndKeeps(s: Sys, t: Tid, script: Script)
    requires Inv(s) && Legal(s, NewEnd(t, script))
    ensures Good(StepNewEnd(s, t, script))
  {
    hide FiberOk, ThreadOk, Neutral, SameShape, IdsOk;
    var s' := StepNewEnd(s, t, script).s;
    var f := s.nextRef;
    NextRefFresh(s);
    forall g { NeutralThreads(g, s.threads[t], s'.threads[t]); }
    KeepThread(s, s', t);
    FreshOk(s, t, f, script);
    Assemble(s, s', t, {f});
    NewIds(s, t, script);
  }

  lemma FreshOk(s: Sys, t: Tid, f: Ref, script: Script)
    requires t in s.threads && ThreadOk(s, t) && f !in s.heap && s.threads[t].pending.Some?
    ensures FiberOk(f, NewFiber(f, s.threads[t].pending.value, t, script), s.threads[t].(pending := None))
  {
  }

  lemma NewIds(s: Sys, t: Tid, script: Script)
    requires IdsOk(s) && t in s.threads && s.threads[t].pending.Some?
    ensures IdsOk(StepNewEnd(s, t, script).s)
  {
  }

  lemma GetThisKeeps(s: Sys, t: Tid)
    requires Inv(s) && Legal(s, GetThis(t))
    ensures Good(StepGetThis(s, t))
  {
    hide FiberOk, Neutral, SameShape, IdsOk;
    var th := s.threads[t];
    assert ThreadOk(s, t);
    if th.cur.Some? {
      CopyForward(s, th.cur.value);
    } else {
      var s' := StepGetThis(s, t).s;
      var m := s.nextRef;
      NextRefFresh(s);
      forall g | g in s.heap ensures Neutral(g, th, s'.threads[t]) {
        assert FiberOkIn(s, g);
        NewMainNeutral(s, t, g);
      }
      NewMainOk(s, t);
      Assemble(s, s', t, {m});
      NewMainIds(s, t);
    }
  }

  lemma CopyForward(s: Sys, f: Ref)
    requires Inv(s) && f in s.heap
    ensures Good(StepCopy(s, f))
  {
    hide IdsOk, ThreadsOk;
    assert FiberOkIn(s, f);
    RewriteFiber(s, f, s.heap[f].(refs := s.heap[f].refs + 1, handles := s.heap[f].handles + 1));
  }

  lemma NewMainNeutral(s: Sys, t: Tid, g: Ref)
    requires t in s.threads && s.threads[t].last.None? && g != s.nextRef
    requires s.threads[t].cur.None?
    ensures Neutral(g, s.threads[t], StepGetThis(s, t).s.threads[t])
  {
  }

  lemma NewMainOk(s: Sys, t: Tid)
    requires Inv(s) && Legal(s, GetThis(t)) && s.threads[t].cur.None? && s.nextRef !in s.heap
    ensures var s' := StepGetThis(s, t).s; ThreadOk(s', t) && FiberOkIn(s', s.nextRef)
  {
    hide IdsOk, FibersOk;
    assert ThreadOk(s, t);
  }

  lemma NewMainIds(s: Sys, t: Tid)
    requires IdsOk(s) && t in s.threads && s.threads[t].cur.None?
    ensures IdsOk(StepGetThis(s, t).s)
  {
  }

  /** A fiber nobody points to any more is destroyed, and its assertions hold. */
  lemma DropKeeps(s: Sys, t: Tid, f: Ref)
    requires Inv(s) && Legal(s, Drop(t, f))
    ensures Good(StepDrop(s, t, f))
  {
    hide Inv, Progress, SavedRight;
    DroppedOk(s, t, f);
    var r := s.heap[f].(handles := s.heap[f].handles - 1, refs := s.heap[f].refs - 1);
    if r.refs > 0 {
      RewriteFiber(s, f, r);
      assert StepDrop(s, t, f) == Ok(SetFiber(s, f, r)) by {
        assert SetFiber(SetFiber(s, f, s.heap[f].(handles := s.heap[f].handles - 1)), f, r) == SetFiber(s, f, r);
      }
    } else {
      LastReference(s, t, f);
    }
  }

  lemma DroppedOk(s: Sys, t: Tid, f: Ref)
    requires Inv(s) && Legal(s, Drop(t, f))
    ensures s.heap[f].refs > 0 && s.heap[f].owner in s.threads
    ensures var r := s.heap[f].(handles := s.heap[f].handles - 1, refs := s.heap[f].refs - 1);
            (r.refs > 0 ==> FiberOk(f, r, s.threads[r.owner]))
  {
    hide IdsOk;
    assert FiberOkIn(s, f) && ThreadOk(s, s.heap[f].owner);
  }

  lemma LastReference(s: Sys, t: Tid, f: Ref)
    requires Inv(s) && Legal(s, Drop(t, f)) && s.heap[f].refs == 1
    ensures Good(StepDrop(s, t, f))
  {
    hide Inv, Progress, FiberOk, ThreadOk, Refers;
    var s1 := SetFiber(SetFiber(s, f, s.heap[f].(handles := 0)), f, s.heap[f].(handles := 0, refs := 0));
    DestructorAsserts(s, t, f);
    if s.heap[f].stack {
      NoneInUse(s, f);
    }
    assert s1.heap - {f} == s.heap - {f};
    RemoveFiber(s, t, f);
  }

  /** Where the last outside pointer goes, nothing else refers to the fiber: it
      is a callback fiber at rest, or the main fiber of a thread that is gone. */
  lemma DestructorAsserts(s: Sys, t: Tid, f: Ref)
    requires Inv(s) && Legal(s, Drop(t, f)) && s.heap[f].refs == 1
    ensures s.heap[f].handles == 1
    ensures forall u :: u in s.threads ==> !Refers(s.threads[u], f)
    ensures if s.heap[f].stack then Restartable(s.heap[f].state) && !s.heap[f].ctx.point.AfterYield? &&
              !s.heap[f].ctx.point.UserCode?
            else s.heap[f].cb == None && s.heap[f].state == EXEC && s.threads[t].cur != Some(f)
  {
    hide IdsOk, Progress;
    assert FiberOkIn(s, f) && ThreadOk(s, t);
    forall u | u in s.threads ensures !Refers(s.threads[u], f) {
      assert ThreadOk(s, u);
    }
  }

  lemma NoneInUse(s: Sys, f: Ref)
    requires f in s.heap && forall u :: u in s.threads ==> !Refers(s.threads[u], f)
    requires !s.heap[f].ctx.point.AfterYield? && !s.heap[f].ctx.point.UserCode?
    ensures !StackInUse(s, f)
  {
    forall u | u in s.threads ensures s.threads[u].exec.stack != OnFiber(f) {
      assert !Refers(s.threads[u], f);
    }
  }

  lemma RemoveFiber(s: Sys, t: Tid, f: Ref)
    requires Inv(s) && f in s.heap && t in s.threads && forall u :: u in s.threads ==> !Refers(s.threads[u], f)
    ensures Inv(s.(heap := s.heap - {f}, fiberCount := s.fiberCount - 1))
  {
    hide FiberOk, ThreadOk, IdsOk, Refers, SameShape, Neutral;
    var s' := s.(heap := s.heap - {f}, fiberCount := s.fiberCount - 1);
    forall g { NeutralSelf(g, s.threads[t]); }
    forall g | Refers(s.threads[t], g) ensures SameShape(s, s', g) {
      ReferenceLives(s, t, g);
      SameFields(s, s', g);
    }
    ThreadOkFrame(s, s', t);
    Assemble(s, s', t, {f});
    IdsFrame(s, s');
    assert s'.heap.Keys == s.heap.Keys - {f};
    Conclude(s');
  }

  // ---------- Thread exit ----------

  /** The state after a thread ends: its main fiber goes too, unless a shared
      pointer to it was kept. */
  function Exited(s: Sys, t: Tid): Sys
    requires t in s.threads
    requires s.threads[t].last.Some? ==> s.threads[t].last.value in s.heap
  {
    var th := s.threads[t].(last := None, exited := true);
    match s.threads[t].last
    case None => SetThread(s, t, th)
    case Some(m) =>
      if s.heap[m].refs > 1 then SetThread(SetFiber(s, m, s.heap[m].(refs := s.heap[m].refs - 1)), t, th)
      else SetThread(s.(heap := s.heap - {m}, fiberCount := s.fiberCount - 1), t, th.(cur := None))
  }

  lemma CanExit(s: Sys, t: Tid)
    requires Inv(s) && Legal(s, Exit(t)) && s.threads[t].last.Some?
    ensures var th, m := s.threads[t], s.threads[t].last.value;
            && m in s.heap && !s.heap[m].stack && s.heap[m].owner == t && th.cur == th.last && th.exec.point.MainCode?
            && s.heap[m].cb == None && s.heap[m].state == EXEC && s.heap[m].refs == s.heap[m].handles + 1
  {
    hide IdsOk;
    assert ThreadOk(s, t) && FiberOkIn(s, s.threads[t].last.value);
  }

  lemma ExitResult(s: Sys, t: Tid)
    requires Inv(s) && Legal(s, Exit(t))
    ensures s.threads[t].last.Some? ==> s.threads[t].last.value in s.heap
    ensures StepExit(s, t) == Ok(Exited(s, t))
  {
    hide Inv;
    if s.threads[t].last.Some? {
      CanExit(s, t);
      var m := s.threads[t].last.value;
      assert s.heap[m := s.heap[m].(refs := 0)] - {m} == s.heap - {m};
    }
  }

  lemma ExitOk(s: Sys, t: Tid)
    requires Inv(s) && Legal(s, Exit(t))
    requires s.threads[t].last.Some? ==> s.threads[t].last.value in s.heap
    ensures ThreadOk(Exited(s, t), t)
    ensures s.threads[t].last.Some? ==>
              var s', m := Exited(s, t), s.threads[t].last.value;
              s.heap[m].owner == t && (m in s'.heap ==> FiberOkIn(s', m))
  {
    hide IdsOk, Progress, SavedRight;
    assert ThreadOk(s, t);
    if s.threads[t].last.Some? {
      assert FiberOkIn(s, s.threads[t].last.value);
    }
  }

  lemma ExitConfined(s: Sys, t: Tid)
    requires ThreadsOk(s) && t in s.threads
    requires s.threads[t].last.Some? ==> s.threads[t].last.value in s.heap && s.heap[s.threads[t].last.value].owner == t
    ensures Confined(s, Exited(s, t), t, if s.threads[t].last.None? then {} else {s.threads[t].last.value})
  {
    hide ThreadOk;
    if s.threads[t].last.Some? {
      OthersDoNotRefer(s, t, s.threads[t].last.value);
    }
  }

  /** Only its own thread refers to a fiber. */
  lemma OthersDoNotRefer(s: Sys, t: Tid, f: Ref)
    requires ThreadsOk(s) && f in s.heap && s.heap[f].owner == t
    ensures forall u :: u in s.threads && u != t ==> !Refers(s.threads[u], f)
  {
    forall u | u in s.threads && u != t ensures !Refers(s.threads[u], f) {
      assert ThreadOk(s, u);
    }
  }

  lemma ExitKeeps(s: Sys, t: Tid)
    requires Inv(s) && Legal(s, Exit(t))
    ensures Good(StepExit(s, t))
  {
    hide FiberOk, ThreadOk, IdsOk, Confined, StepExit, FiberOkIn;
    ExitResult(s, t);
    ExitOk(s, t);
    ExitConfined(s, t);
    var s' := Exited(s, t);
    Assemble(s, s', t, if s.threads[t].last.None? then {} else {s.threads[t].last.value});
    IdsFrame(s, s');
    if s.threads[t].last.Some? {
      var m := s.threads[t].last.value;
      assert s'.heap.Keys == if s.heap[m].refs > 1 then s.heap.Keys else s.heap.Keys - {m};
    }
    Conclude(s');
  }

  // ---------- swapIn ----------

  /** The state after a legal swapIn: main's context says where the call comes
      back to, and the fiber runs from where it stopped. */
  function Swapped(s: Sys, t: Tid, f: Ref): Sys
    requires t in s.threads && f in s.heap
    requires s.threads[t].last.Some? && s.threads[t].last.value in s.heap && s.threads[t].exec.point.MainCode?
    requires s.heap[f].state == INIT || s.heap[f].refs > 0
  {
    var th, r := s.threads[t], s.heap[f];
    var m, n := th.last.value, th.exec.point.calls + 1;
    var r' := r.(state := EXEC, swaps := r.swaps + 1, refs := if r.state == INIT then r.refs + 1 else r.refs - 1);
    SetThread(
      s.(heap := s.heap[m := s.heap[m].(ctx := Ctx(OnThread, MainCode(n)))][f := r']), t,
      th.(cur := Some(f), call := Some(Call(f, n)), exec := Ctx(OnFiber(f), UserCode(f, |r.log|))))
  }

  lemma CanSwap(s: Sys, t: Tid, f: Ref)
    requires Inv(s) && Legal(s, SwapIn(t, f))
    ensures var th := s.threads[t];
            && th.last.Some? && th.last.value in s.heap && th.last.value != f && th.last == th.cur
            && th.exec.point.MainCode? && th.exec.stack == OnThread && th.call.None?
            && !s.heap[th.last.value].stack && s.heap[th.last.value].owner == t
    ensures s.heap[f].refs == s.heap[f].handles + FrameRefs(s.heap[f].state) && SavedRight(f, s.heap[f])
  {
    hide IdsOk, Progress, SavedRight;
    assert ThreadOk(s, t) && FiberOkIn(s, f);
  }

  lemma SwapInResult(s: Sys, t: Tid, f: Ref)
    requires Inv(s) && Legal(s, SwapIn(t, f))
    ensures s.threads[t].last.Some? && s.threads[t].last.value in s.heap && s.threads[t].exec.point.MainCode?
    ensures s.heap[f].state == INIT || s.heap[f].refs > 0
    ensures StepSwapIn(s, t, f) == Ok(Swapped(s, t, f))
  {
    hide Inv, Resume, FrameRefs, SavedRight;
    CanSwap(s, t, f);
    RestState(s, t, f);
    var th, r := s.threads[t], s.heap[f];
    var m, n := th.last.value, th.exec.point.calls + 1;
    var r1 := r.(state := EXEC, swaps := r.swaps + 1);
    var th1 := th.(cur := Some(f), call := Some(Call(f, n)), exec := r.ctx);
    var s1 := SetThread(s.(heap := s.heap[f := r1][m := s.heap[m].(ctx := Ctx(OnThread, MainCode(n)))]), t, th1);
    assert StepSwapIn(s, t, f) == Resume(s1, t) by {
      assert s.threads[t := th1.(exec := th.exec)][t := th1] == s.threads[t := th1];
    }
    ResumeFiber(s1, t, f);
    assert SetFiber(s1, f, Swapped(s, t, f).heap[f]).heap == Swapped(s, t, f).heap;
  }

  lemma RestState(s: Sys, t: Tid, f: Ref)
    requires Inv(s) && Legal(s, SwapIn(t, f))
    ensures s.heap[f].state == INIT ==> s.heap[f].ctx == Ctx(OnFiber(f), Entry) && s.heap[f].log == []
    ensures s.heap[f].state != INIT ==>
              s.heap[f].ctx == Ctx(OnFiber(f), AfterYield(f, f, |s.heap[f].log|)) && s.heap[f].refs > 1
  {
    hide IdsOk, ThreadsOk;
    assert FiberOkIn(s, f);
  }

  /** A fiber goes on in its own callback: at the start it takes a pointer to
      itself, after a yield it gives one back. */
  lemma ResumeFiber(s: Sys, t: Tid, f: Ref)
    requires t in s.threads && f in s.heap && s.threads[t].cur == Some(f) && s.threads[t].exec == s.heap[f].ctx
    requires || s.heap[f].ctx == Ctx(OnFiber(f), Entry)
             || (s.heap[f].ctx == Ctx(OnFiber(f), AfterYield(f, f, |s.heap[f].log|)) && s.heap[f].refs > 1)
    ensures var entry := s.heap[f].ctx.point == Entry;
            Resume(s, t) == Ok(SetThread(
              SetFiber(s, f, s.heap[f].(refs := if entry then s.heap[f].refs + 1 else s.heap[f].refs - 1)), t,
              s.threads[t].(exec := Ctx(OnFiber(f), UserCode(f, if entry then 0 else |s.heap[f].log|)))))
  {
  }

  lemma SwapInKeeps(s: Sys, t: Tid, f: Ref)
    requires Inv(s) && Legal(s, SwapIn(t, f))
    ensures Good(StepSwapIn(s, t, f))
  {
    hide FiberOk, ThreadOk, IdsOk, Confined, StepSwapIn, FiberOkIn;
    SwapInResult(s, t, f);
    var s', m := Swapped(s, t, f), s.threads[t].last.value;
    SwappedOk(s, t, f);
    SwappedConfined(s, t, f);
    Assemble(s, s', t, {f, m});
    CanSwap(s, t, f);
    IdsFrame(s, s');
    assert s'.heap.Keys == s.heap.Keys;
    Conclude(s');
  }

  lemma SwappedOk(s: Sys, t: Tid, f: Ref)
    requires Inv(s) && Legal(s, SwapIn(t, f))
    requires s.threads[t].last.Some? && s.threads[t].last.value in s.heap && s.threads[t].exec.point.MainCode?
    requires s.heap[f].state == INIT || s.heap[f].refs > 0
    ensures var s', m := Swapped(s, t, f), s.threads[t].last.value;
            ThreadOk(s', t) && FiberOkIn(s', f) && FiberOkIn(s', m)
  {
    hide IdsOk;
    CanSwap(s, t, f);
    RestState(s, t, f);
    assert ThreadOk(s, t) && FiberOkIn(s, f) && FiberOkIn(s, s.threads[t].last.value);
  }

  lemma SwappedConfined(s: Sys, t: Tid, f: Ref)
    requires Inv(s) && Legal(s, SwapIn(t, f))
    requires s.threads[t].last.Some? && s.threads[t].last.value in s.heap && s.threads[t].exec.point.MainCode?
    requires s.heap[f].state == INIT || s.heap[f].refs > 0
    ensures Confined(s, Swapped(s, t, f), t, {f, s.threads[t].last.value})
  {
    hide ThreadOk, FiberOk, IdsOk, FiberOkIn;
    CanSwap(s, t, f);
    OthersDoNotRefer(s, t, f);
    OthersDoNotRefer(s, t, s.threads[t].last.value);
  }

  // ---------- The callback's actions ----------

  lemma CanAct(s: Sys, t: Tid)
    requires Inv(s) && Legal(s, Act(t))
    ensures var th := s.threads[t];
            var f := th.exec.stack.f;
            && f in s.heap && s.heap[f].stack && s.heap[f].owner == t && s.heap[f].state == EXEC
            && th.exec.point == UserCode(f, |s.heap[f].log|) && th.cur == Some(f)
            && s.heap[f].cb == Some(s.heap[f].prog) && s.heap[f].log <= s.heap[f].prog
            && s.heap[f].refs > 1
            && th.last.Some? && th.last.value in s.heap && th.last.value != f
            && !s.heap[th.last.value].stack
            && th.call.Some? && th.call.value.f == f
            && s.heap[th.last.value].ctx == Ctx(OnThread, MainCode(th.call.value.back))
  {
    hide IdsOk, SavedRight;
    assert ThreadOk(s, t);
    assert FiberOkIn(s, s.threads[t].exec.stack.f);
  }

  /** The fiber's record after its next action. */
  function Acted(r: Fiber, f: Ref): Fiber
    requires r.log <= r.prog && r.refs > 0
  {
    if r.log == r.prog then
      r.(cb := None, state := TERM, refs := r.refs - 1, ctx := Ctx(OnFiber(f), AfterLast))
    else
      var a := r.prog[|r.log|];
      var log := r.log + [a];
      match a
      case Work(_) => r.(log := log)
      case YieldHold => r.(log := log, state := HOLD, refs := r.refs + 1,
          ctx := Ctx(OnFiber(f), AfterYield(f, f, |log|)))
      case YieldReady => r.(log := log, state := READY, refs := r.refs + 1,
          ctx := Ctx(OnFiber(f), AfterYield(f, f, |log|)))
      case Throw => r.(log := log, state := EXCEP, refs := r.refs - 1, ctx := Ctx(OnFiber(f), AfterLast))
  }

  /** The state after an action: still in the callback after work, back in the
      thread's code, right after the matching swapIn call, after anything else. */
  function AfterAct(s: Sys, t: Tid): Sys
    requires t in s.threads && s.threads[t].exec.stack.OnFiber? && s.threads[t].call.Some?
    requires var f := s.threads[t].exec.stack.f;
             f in s.heap && s.heap[f].log <= s.heap[f].prog && s.heap[f].refs > 0
  {
    var th := s.threads[t];
    var f := th.exec.stack.f;
    var r := Acted(s.heap[f], f);
    SetThread(SetFiber(s, f, r), t,
              if r.state == EXEC then th.(exec := Ctx(OnFiber(f), UserCode(f, |r.log|)))
              else th.(cur := th.last, exec := Ctx(OnThread, MainCode(th.call.value.back)), call := None))
  }

  lemma ActResult(s: Sys, t: Tid)
    requires Inv(s) && Legal(s, Act(t))
    ensures s.threads[t].call.Some?
    ensures var f := s.threads[t].exec.stack.f;
            f in s.heap && s.heap[f].log <= s.heap[f].prog && s.heap[f].refs > 0
    ensures StepAct(s, t) == Ok(AfterAct(s, t))
  {
    hide Inv, SwapOut, StepFinish;
    CanAct(s, t);
    var f := s.threads[t].exec.stack.f;
    var r := s.heap[f];
    if |r.log| == |r.prog| {
      assert r.log == r.prog;
      FinishResult(s, t, f, TERM);
    } else {
      var a := r.prog[|r.log|];
      var s1 := Log(s, f, a);
      if a == Throw {
        FinishResult(s1, t, f, EXCEP);
        TwiceSet(s, f, s1.heap[f], Acted(r, f));
      } else if a == YieldHold || a == YieldReady {
        var r2 := s1.heap[f].(refs := r.refs + 1, state := if a == YieldHold then HOLD else READY);
        SwapOutResult(SetFiber(s1, f, r2), t, f, AfterYield(f, f, |r.log| + 1));
        TwiceSet(s, f, s1.heap[f], r2);
        TwiceSet(s, f, r2, Acted(r, f));
      }
    }
  }

  lemma TwiceSet(s: Sys, f: Ref, r1: Fiber, r2: Fiber)
    ensures SetFiber(SetFiber(s, f, r1), f, r2) == SetFiber(s, f, r2)
  {
    assert s.heap[f := r1][f := r2] == s.heap[f := r2];
  }

  /** swapOut of the running fiber goes back to the thread's code. */
  lemma SwapOutResult(s: Sys, t: Tid, f: Ref, point: Point)
    requires t in s.threads && f in s.heap && s.threads[t].exec.stack == OnFiber(f)
    requires s.threads[t].last.Some? && s.threads[t].last.value in s.heap && s.threads[t].last.value != f
    requires s.threads[t].call.Some?
    requires s.heap[s.threads[t].last.value].ctx == Ctx(OnThread, MainCode(s.threads[t].call.value.back))
    ensures var th := s.threads[t];
            SwapOut(s, t, f, point) ==
            Ok(SetThread(SetFiber(s, f, s.heap[f].(ctx := Ctx(OnFiber(f), point))), t,
                         th.(cur := th.last, exec := Ctx(OnThread, MainCode(th.call.value.back)), call := None)))
  {
    var th := s.threads[t];
    var th1 := th.(cur := th.last);
    var th2 := th1.(exec := Ctx(OnThread, MainCode(th.call.value.back)));
    var th3 := th2.(call := None);
    assert s.threads[t := th1][t := th2][t := th3] == s.threads[t := th3];
  }

  lemma FinishResult(s: Sys, t: Tid, f: Ref, st: State)
    requires t in s.threads && f in s.heap && s.threads[t].exec.stack == OnFiber(f) && s.heap[f].refs > 1
    requires s.threads[t].last.Some? && s.threads[t].last.value in s.heap && s.threads[t].last.value != f
    requires s.threads[t].call.Some?
    requires s.heap[s.threads[t].last.value].ctx == Ctx(OnThread, MainCode(s.threads[t].call.value.back))
    ensures var th, r := s.threads[t], s.heap[f];
            StepFinish(s, t, f, st) ==
            Ok(SetThread(SetFiber(s, f, r.(state := st, cb := if st == TERM then None else r.cb, refs := r.refs - 1,
                                           ctx := Ctx(OnFiber(f), AfterLast))), t,
                         th.(cur := th.last, exec := Ctx(OnThread, MainCode(th.call.value.back)), call := None)))
  {
    hide SwapOut;
    var r := s.heap[f];
    var r1 := r.(state := st, cb := if st == TERM then None else r.cb);
    var r2 := r1.(refs := r.refs - 1);
    TwiceSet(s, f, r1, r2);
    assert Release(SetFiber(s, f, r1), t, f) == Ok(SetFiber(s, f, r2));
    SwapOutResult(SetFiber(s, f, r2), t, f, AfterLast);
    TwiceSet(s, f, r2, r2.(ctx := Ctx(OnFiber(f), AfterLast)));
  }

  lemma ActKeeps(s: Sys, t: Tid)
    requires Inv(s) && Legal(s, Act(t))
    ensures Good(StepAct(s, t))
  {
    hide FiberOk, ThreadOk, IdsOk, Confined, StepAct, FiberOkIn;
    ActResult(s, t);
    CanAct(s, t);
    var s', f := AfterAct(s, t), s.threads[t].exec.stack.f;
    ActedOk(s, t);
    ActConfined(s, t);
    Assemble(s, s', t, {f});
    IdsFrame(s, s');
    assert s'.heap.Keys == s.heap.Keys;
    Conclude(s');
  }

  lemma ActedOk(s: Sys, t: Tid)
    requires Inv(s) && Legal(s, Act(t)) && s.threads[t].call.Some?
    requires var f := s.threads[t].exec.stack.f;
             f in s.heap && s.heap[f].log <= s.heap[f].prog && s.heap[f].refs > 0
    ensures var s', f := AfterAct(s, t), s.threads[t].exec.stack.f;
            ThreadOk(s', t) && FiberOkIn(s', f)
  {
    hide IdsOk, Progress, SavedRight;
    CanAct(s, t);
    var f := s.threads[t].exec.stack.f;
    assert ThreadOk(s, t) && FiberOkIn(s, f);
    ActedProgress(s.heap[f], f);
  }

  lemma OneMoreAction(log: Script, a: Action)
    ensures (log + [a])[..|log|] == log
    ensures Yields(log + [a]) == Yields(log) + if a in {YieldHold, YieldReady} then 1 else 0
    ensures NoThrow(log + [a]) <==> NoThrow(log) && a != Throw
  {
    assert (log + [a])[..|log|] == log;
  }

  lemma ActedProgress(r: Fiber, f: Ref)
    requires r.state == EXEC && Progress(r) && r.refs > 0
    ensures var r' := Acted(r, f);
            Progress(r') && SavedRight(f, r') && r'.log == if r.log == r.prog then r.log else r.log + [r.prog[|r.log|]]
  {
    hide Yields, NoThrow;
    if |r.log| < |r.prog| {
      OneMoreAction(r.log, r.prog[|r.log|]);
    }
  }

  lemma ActConfined(s: Sys, t: Tid)
    requires Inv(s) && Legal(s, Act(t)) && s.threads[t].call.Some?
    requires var f := s.threads[t].exec.stack.f;
             f in s.heap && s.heap[f].log <= s.heap[f].prog && s.heap[f].refs > 0
    ensures Confined(s, AfterAct(s, t), t, {s.threads[t].exec.stack.f})
  {
    hide ThreadOk, FiberOk, IdsOk, FiberOkIn, Acted;
    CanAct(s, t);
    OthersDoNotRefer(s, t, s.threads[t].exec.stack.f);
  }

  // ---------- Whole runs ----------

  lemma StepKeeps(s: Sys, c: Command)
    requires Inv(s) && Legal(s, c)
    ensures Good(Step(s, c))
  {
    hide Inv;
    match c
    case GetThis(t) => GetThisKeeps(s, t);
    case NewBegin(t) => NewBeginKeeps(s, t);
    case NewEnd(t, script) => NewEndKeeps(s, t, script);
    case SwapIn(t, f) => SwapInKeeps(s, t, f);
    case Act(t) => ActKeeps(s, t);
    case Reset(t, f, script) => ResetKeeps(s, t, f, script);
    case Copy(_, f) => CopyKeeps(s, f);
    case Drop(t, f) => DropKeeps(s, t, f);
    case Exit(t) => ExitKeeps(s, t);
  }

  /** No run within the usage rule, of any number of threads and in any order,
      ever faults: no assertion fails, no dead or null pointer is followed, no
      stack in use is freed, no wrong code is resumed. */
  lemma {:induction false} RunsAreSafe(s: Sys, cs: seq<Command>)
    requires Inv(s) && LegalRun(s, cs)
    ensures Good(Run(s, cs))
    decreases |cs|
  {
    hide Inv, Step;
    if cs == [] {
    } else {
      StepKeeps(s, cs[0]);
      RunsAreSafe(Step(s, cs[0]).s, cs[1..]);
    }
  }
}

/** A reset fiber behaves like a new one: the runs after `reset` are, fiber for
    fiber, the runs after the constructor has made another control block for the
    same callback. */
module FiberReset {
  import opened FiberMachine
  import opened FiberSafety
  import opened Options

  // ---------- The same run with other addresses ----------

  /** The addresses of the system with the reset fiber `f`, in the system with a
      new fiber at `g`, where later fibers come one address further. */
  function Moved(f: Ref, g: Ref, r: Ref): Ref {
    if r == f then g else if r < g then r else r + 1
  }

  function MovedOpt(f: Ref, g: Ref, p: Option<Ref>): Option<Ref> {
    if p.None? then None else Some(Moved(f, g, p.value))
  }

  function MovedCtx(f: Ref, g: Ref, c: Ctx): Ctx {
    Ctx(match c.stack {
          case OnThread => OnThread
          case OnFiber(r) => OnFiber(Moved(f, g, r))
        },
        match c.point {
          case UserCode(self, pc) => UserCode(Moved(f, g, self), pc)
          case AfterYield(self, cur, pc) => AfterYield(Moved(f, g, self), Moved(f, g, cur), pc)
          case p => p
        })
  }

  function MovedCall(f: Ref, g: Ref, c: Option<Call>): Option<Call> {
    if c.None? then None else Some(Call(Moved(f, g, c.value.f), c.value.back))
  }

  function MovedCommand(f: Ref, g: Ref, c: Command): Command {
    match c
    case SwapIn(t, r) => SwapIn(t, Moved(f, g, r))
    case Reset(t, r, script) => Reset(t, Moved(f, g, r), script)
    case Copy(t, r) => Copy(t, Moved(f, g, r))
    case Drop(t, r) => Drop(t, Moved(f, g, r))
    case _ => c
  }

  function MovedRun(f: Ref, g: Ref, cs: seq<Command>): seq<Command> {
    if cs == [] then [] else [MovedCommand(f, g, cs[0])] + MovedRun(f, g, cs[1..])
  }

  /** The same record at the other address; only the id may differ. */
  predicate FiberLike(f: Ref, g: Ref, r1: Fiber, r2: Fiber) {
    r2 == r1.(ctx := MovedCtx(f, g, r1.ctx), id := r2.id)
  }

  /** The same thread; an id drawn may differ, and the pointers of an ended
      thread no longer matter. */
  predicate ThreadLike(f: Ref, g: Ref, t1: Thread, t2: Thread) {
    && t2.exec == MovedCtx(f, g, t1.exec) && t2.call == MovedCall(f, g, t1.call)
    && t2.last == MovedOpt(f, g, t1.last) && t2.exited == t1.exited
    && (t2.pending.Some? <==> t1.pending.Some?)
    && (!t1.exited ==> t2.cur == MovedOpt(f, g, t1.cur))
  }

  /** `s2` is `s1` with the fiber `f` at `g`, and with one more fiber, at `f`,
      that takes no part. */
  ghost predicate Alike(s1: Sys, s2: Sys, f: Ref, g: Ref) {
    && f < g <= s1.nextRef && s2.nextRef == s1.nextRef + 1
    && f in s2.heap
    && (forall t :: t in s1.threads <==> t in s2.threads)
    && (forall t :: t in s1.threads ==> ThreadLike(f, g, s1.threads[t], s2.threads[t]))
    && (forall r :: r in s1.heap ==> Moved(f, g, r) in s2.heap && FiberLike(f, g, s1.heap[r], s2.heap[Moved(f, g, r)]))
    && (forall r :: r !in s1.heap ==> Moved(f, g, r) !in s2.heap)
  }

  lemma MovedIs(f: Ref, g: Ref, r: Ref, q: Ref)
    requires f < g
    ensures Moved(f, g, r) == Moved(f, g, q) <==> r == q
    ensures Moved(f, g, r) != f
  {
  }

  lemma SetFiberAlike(s1: Sys, s2: Sys, f: Ref, g: Ref, r: Ref, x1: Fiber, x2: Fiber)
    requires Alike(s1, s2, f, g) && FiberLike(f, g, x1, x2)
    ensures Alike(SetFiber(s1, r, x1), SetFiber(s2, Moved(f, g, r), x2), f, g)
  {
    hide FiberLike, ThreadLike;
  }

  lemma SetThreadAlike(s1: Sys, s2: Sys, f: Ref, g: Ref, t: Tid, x1: Thread, x2: Thread)
    requires Alike(s1, s2, f, g) && ThreadLike(f, g, x1, x2)
    ensures Alike(SetThread(s1, t, x1), SetThread(s2, t, x2), f, g)
  {
    hide FiberLike, ThreadLike, Moved;
  }

  lemma RemoveAlike(s1: Sys, s2: Sys, f: Ref, g: Ref, r: Ref)
    requires Alike(s1, s2, f, g)
    ensures Alike(s1.(heap := s1.heap - {r}, fiberCount := s1.fiberCount - 1),
                  s2.(heap := s2.heap - {Moved(f, g, r)}, fiberCount := s2.fiberCount - 1), f, g)
  {
    hide FiberLike, ThreadLike;
    forall q { MovedIs(f, g, r, q); }
  }

  /** A fiber made in both systems. */
  lemma CreateAlike(s1: Sys, s2: Sys, f: Ref, g: Ref, x1: Fiber, x2: Fiber)
    requires Alike(s1, s2, f, g) && FiberLike(f, g, x1, x2)
    ensures Moved(f, g, s1.nextRef) == s2.nextRef
    ensures Alike(SetFiber(s1, s1.nextRef, x1).(nextRef := s1.nextRef + 1, fiberCount := s1.fiberCount + 1),
                  SetFiber(s2, s2.nextRef, x2).(nextRef := s2.nextRef + 1, fiberCount := s2.fiberCount + 1), f, g)
  {
    hide FiberLike, ThreadLike;
    SetFiberAlike(s1, s2, f, g, s1.nextRef, x1, x2);
  }

  // ---------- The same commands are legal ----------

  lemma LegalAlike(s1: Sys, s2: Sys, f: Ref, g: Ref, c: Command)
    requires Alike(s1, s2, f, g)
    ensures Legal(s1, c) == Legal(s2, MovedCommand(f, g, c))
  {
    hide Alike, InCall;
    ThreadSeen(s1, s2, f, g, c.t);
    match c
    case SwapIn(_, r) => FiberSeen(s1, s2, f, g, r);
    case Reset(_, r, _) => FiberSeen(s1, s2, f, g, r);
    case Copy(_, r) => FiberSeen(s1, s2, f, g, r);
    case Drop(_, r) => FiberSeen(s1, s2, f, g, r);
    case _ =>
  }

  lemma FiberSeen(s1: Sys, s2: Sys, f: Ref, g: Ref, r: Ref)
    requires Alike(s1, s2, f, g)
    ensures r in s1.heap <==> Moved(f, g, r) in s2.heap
    ensures r in s1.heap ==> FiberLike(f, g, s1.heap[r], s2.heap[Moved(f, g, r)])
    ensures r in s1.heap ==> InCall(s1, r) == InCall(s2, Moved(f, g, r))
  {
    if r in s1.heap {
      var t := s1.heap[r].owner;
      if t in s1.threads && s1.threads[t].call.Some? {
        MovedIs(f, g, s1.threads[t].call.value.f, r);
      }
    }
  }

  // ---------- The same commands do the same ----------

  lemma GetThisAlike(s1: Sys, s2: Sys, f: Ref, g: Ref, t: Tid)
    requires Alike(s1, s2, f, g) && Inv(s1) && Inv(s2) && Legal(s1, GetThis(t)) && Legal(s2, GetThis(t))
    ensures StepGetThis(s1, t).Ok? && StepGetThis(s2, t).Ok? ==> Alike(StepGetThis(s1, t).s, StepGetThis(s2, t).s, f, g)
  {
    hide Inv, Alike, SetFiber, SetThread;
    ThreadSeen(s1, s2, f, g, t);
    var th1, th2 := s1.threads[t], s2.threads[t];
    if th1.cur.Some? {
      CopyAlike(s1, s2, f, g, th1.cur.value);
    } else {
      OnItsOwn(s1, t);
      var x1 := Fiber(0, EXEC, Ctx(OnThread, th1.exec.point), None, false, 2, t, 1, [], [], 0);
      var x2 := Fiber(0, EXEC, Ctx(OnThread, th2.exec.point), None, false, 2, t, 1, [], [], 0);
      var m1, m2 := s1.nextRef, s2.nextRef;
      CreateAlike(s1, s2, f, g, x1, x2);
      var u1 := SetFiber(s1, m1, x1).(nextRef := m1 + 1, fiberCount := s1.fiberCount + 1);
      var u2 := SetFiber(s2, m2, x2).(nextRef := m2 + 1, fiberCount := s2.fiberCount + 1);
      var y1, y2 := th1.(cur := Some(m1), last := Some(m1)), th2.(cur := Some(m2), last := Some(m2));
      SetThreadAlike(u1, u2, f, g, t, y1, y2);
      MadeIs(s1, t, m1, x1, y1);
      MadeIs(s2, t, m2, x2, y2);
    }
  }

  lemma MadeIs(s: Sys, t: Tid, m: Ref, x: Fiber, y: Thread)
    ensures SetThread(SetFiber(s, m, x), t, y).(nextRef := m + 1, fiberCount := s.fiberCount + 1)
         == SetThread(SetFiber(s, m, x).(nextRef := m + 1, fiberCount := s.fiberCount + 1), t, y)
  {
  }

  lemma OnItsOwn(s: Sys, t: Tid)
    requires Inv(s) && t in s.threads && !s.threads[t].exited && s.threads[t].cur.None?
    ensures s.threads[t].exec.stack == OnThread && s.threads[t].exec.point.MainCode?
  {
    hide FibersOk, IdsOk;
    assert ThreadOk(s, t);
  }

  lemma ThreadSeen(s1: Sys, s2: Sys, f: Ref, g: Ref, t: Tid)
    requires Alike(s1, s2, f, g)
    ensures t in s1.threads <==> t in s2.threads
    ensures t in s1.threads ==> ThreadLike(f, g, s1.threads[t], s2.threads[t])
  {
  }

  lemma CopyAlike(s1: Sys, s2: Sys, f: Ref, g: Ref, r: Ref)
    requires Alike(s1, s2, f, g)
    ensures var o1, o2 := StepCopy(s1, r), StepCopy(s2, Moved(f, g, r)); o1.Ok? && o2.Ok? ==> Alike(o1.s, o2.s, f, g)
  {
    hide Alike;
    FiberSeen(s1, s2, f, g, r);
    if r in s1.heap {
      var q := Moved(f, g, r);
      var x1 := s1.heap[r].(refs := s1.heap[r].refs + 1, handles := s1.heap[r].handles + 1);
      var x2 := s2.heap[q].(refs := s2.heap[q].refs + 1, handles := s2.heap[q].handles + 1);
      SetFiberAlike(s1, s2, f, g, r, x1, x2);
    }
  }

  lemma ResetAlike(s1: Sys, s2: Sys, f: Ref, g: Ref, r: Ref, script: Script)
    requires Alike(s1, s2, f, g)
    ensures var o1, o2 := StepReset(s1, r, script), StepReset(s2, Moved(f, g, r), script);
            o1.Ok? && o2.Ok? ==> Alike(o1.s, o2.s, f, g)
  {
    hide Alike;
    FiberSeen(s1, s2, f, g, r);
    var q := Moved(f, g, r);
    var o1, o2 := StepReset(s1, r, script), StepReset(s2, q, script);
    if o1.Ok? && o2.Ok? {
      SetFiberAlike(s1, s2, f, g, r, o1.s.heap[r], o2.s.heap[q]);
      assert o1.s == SetFiber(s1, r, o1.s.heap[r]) && o2.s == SetFiber(s2, q, o2.s.heap[q]);
    }
  }

  lemma NewAlike(s1: Sys, s2: Sys, f: Ref, g: Ref, t: Tid, script: Script)
    requires Alike(s1, s2, f, g) && t in s1.threads && t in s2.threads
    ensures var o1, o2 := StepNewBegin(s1, t), StepNewBegin(s2, t); o1.Ok? && o2.Ok? ==> Alike(o1.s, o2.s, f, g)
    ensures var o1, o2 := StepNewEnd(s1, t, script), StepNewEnd(s2, t, script);
            o1.Ok? && o2.Ok? ==> Alike(o1.s, o2.s, f, g)
  {
    hide Alike, SetFiber, SetThread;
    ThreadSeen(s1, s2, f, g, t);
    var th1, th2 := s1.threads[t], s2.threads[t];
    var y1, y2 := th1.(pending := Some(s1.fiberId + 1)), th2.(pending := Some(s2.fiberId + 1));
    SetThreadAlike(s1, s2, f, g, t, y1, y2);
    CountersAlike(SetThread(s1, t, y1), SetThread(s2, t, y2), f, g, s1.fiberId + 1, s2.fiberId + 1);
    if th1.pending.Some? {
      var m1, m2 := s1.nextRef, s2.nextRef;
      var x1, x2 := NewFiber(m1, th1.pending.value, t, script), NewFiber(m2, th2.pending.value, t, script);
      assert Moved(f, g, m1) == m2 by { NextMoves(s1, s2, f, g); }
      CreateAlike(s1, s2, f, g, x1, x2);
      var u1 := SetFiber(s1, m1, x1).(nextRef := m1 + 1, fiberCount := s1.fiberCount + 1);
      var u2 := SetFiber(s2, m2, x2).(nextRef := m2 + 1, fiberCount := s2.fiberCount + 1);
      SetThreadAlike(u1, u2, f, g, t, th1.(pending := None), th2.(pending := None));
      MadeIs(s1, t, m1, x1, th1.(pending := None));
      MadeIs(s2, t, m2, x2, th2.(pending := None));
    }
  }

  lemma NextMoves(s1: Sys, s2: Sys, f: Ref, g: Ref)
    requires Alike(s1, s2, f, g)
    ensures Moved(f, g, s1.nextRef) == s2.nextRef
  {
  }

  lemma CountersAlike(s1: Sys, s2: Sys, f: Ref, g: Ref, n1: nat, n2: nat)
    requires Alike(s1, s2, f, g)
    ensures Alike(s1.(fiberId := n1), s2.(fiberId := n2), f, g)
  {
    hide FiberLike, ThreadLike;
  }

  lemma DropAlike(s1: Sys, s2: Sys, f: Ref, g: Ref, t: Tid, r: Ref)
    requires Alike(s1, s2, f, g) && Inv(s1) && Inv(s2)
    requires Legal(s1, Drop(t, r)) && Legal(s2, Drop(t, Moved(f, g, r)))
    ensures var o1, o2 := StepDrop(s1, t, r), StepDrop(s2, t, Moved(f, g, r)); o1.Ok? && o2.Ok? ==>
              Alike(o1.s, o2.s, f, g)
  {
    hide Alike, Inv, StepDrop;
    FiberSeen(s1, s2, f, g, r);
    var q := Moved(f, g, r);
    DroppedIs(s1, t, r);
    DroppedIs(s2, t, q);
    var x1 := s1.heap[r].(handles := s1.heap[r].handles - 1, refs := s1.heap[r].refs - 1);
    var x2 := s2.heap[q].(handles := s2.heap[q].handles - 1, refs := s2.heap[q].refs - 1);
    if s1.heap[r].refs > 1 {
      SetFiberAlike(s1, s2, f, g, r, x1, x2);
    } else {
      RemoveAlike(s1, s2, f, g, r);
    }
  }

  /** A dropped pointer: one less, or the fiber is gone. */
  lemma DroppedIs(s: Sys, t: Tid, r: Ref)
    requires Inv(s) && Legal(s, Drop(t, r))
    ensures s.heap[r].handles > 0 && s.heap[r].refs > 0
    ensures StepDrop(s, t, r) ==
            Ok(if s.heap[r].refs > 1 then
                 SetFiber(s, r, s.heap[r].(handles := s.heap[r].handles - 1, refs := s.heap[r].refs - 1))
               else s.(heap := s.heap - {r}, fiberCount := s.fiberCount - 1))
  {
    hide Inv, StackInUse;
    DroppedOk(s, t, r);
    DropKeeps(s, t, r);
    var x := s.heap[r].(handles := s.heap[r].handles - 1);
    var y := x.(refs := s.heap[r].refs - 1);
    TwiceSet(s, r, x, y);
    if s.heap[r].refs == 1 {
      DestructorAsserts(s, t, r);
      assert SetFiber(s, r, y).heap - {r} == s.heap - {r};
    }
  }

  lemma ExitAlike(s1: Sys, s2: Sys, f: Ref, g: Ref, t: Tid)
    requires Alike(s1, s2, f, g) && Inv(s1) && Inv(s2) && Legal(s1, Exit(t)) && Legal(s2, Exit(t))
    ensures var o1, o2 := StepExit(s1, t), StepExit(s2, t); o1.Ok? && o2.Ok? ==> Alike(o1.s, o2.s, f, g)
  {
    hide Alike, Inv, StepExit;
    ThreadSeen(s1, s2, f, g, t);
    ExitResult(s1, t);
    ExitResult(s2, t);
    var th1, th2 := s1.threads[t], s2.threads[t];
    var y1, y2 := th1.(last := None, exited := true), th2.(last := None, exited := true);
    if th1.last.None? {
      SetThreadAlike(s1, s2, f, g, t, y1, y2);
    } else {
      var m := th1.last.value;
      var n := Moved(f, g, m);
      FiberSeen(s1, s2, f, g, m);
      if s1.heap[m].refs > 1 {
        var x1, x2 := s1.heap[m].(refs := s1.heap[m].refs - 1), s2.heap[n].(refs := s2.heap[n].refs - 1);
        SetFiberAlike(s1, s2, f, g, m, x1, x2);
        SetThreadAlike(SetFiber(s1, m, x1), SetFiber(s2, n, x2), f, g, t, y1, y2);
      } else {
        RemoveAlike(s1, s2, f, g, m);
        SetThreadAlike(s1.(heap := s1.heap - {m}, fiberCount := s1.fiberCount - 1),
                       s2.(heap := s2.heap - {n}, fiberCount := s2.fiberCount - 1), f, g, t,
                       y1.(cur := None), y2.(cur := None));
      }
    }
  }

  lemma SwapInAlike(s1: Sys, s2: Sys, f: Ref, g: Ref, t: Tid, r: Ref)
    requires Alike(s1, s2, f, g) && Inv(s1) && Inv(s2)
    requires Legal(s1, SwapIn(t, r)) && Legal(s2, SwapIn(t, Moved(f, g, r)))
    ensures var o1, o2 := StepSwapIn(s1, t, r), StepSwapIn(s2, t, Moved(f, g, r));
            o1.Ok? && o2.Ok? ==> Alike(o1.s, o2.s, f, g)
  {
    hide Alike, Inv, StepSwapIn;
    var q := Moved(f, g, r);
    SwapInResult(s1, t, r);
    SwapInResult(s2, t, q);
    CanSwap(s1, t, r);
    ThreadSeen(s1, s2, f, g, t);
    FiberSeen(s1, s2, f, g, r);
    var m := s1.threads[t].last.value;
    var n := Moved(f, g, m);
    FiberSeen(s1, s2, f, g, m);
    var u1, u2 := Swapped(s1, t, r), Swapped(s2, t, q);
    var v1, v2 := SetFiber(s1, m, u1.heap[m]), SetFiber(s2, n, u2.heap[n]);
    assert m != r && n != q by { CanSwap(s2, t, q); }
    SetFiberAlike(s1, s2, f, g, m, u1.heap[m], u2.heap[n]);
    SetFiberAlike(v1, v2, f, g, r, u1.heap[r], u2.heap[q]);
    SetThreadAlike(SetFiber(v1, r, u1.heap[r]), SetFiber(v2, q, u2.heap[q]), f, g, t, u1.threads[t], u2.threads[t]);
    assert u1 == SetThread(SetFiber(v1, r, u1.heap[r]), t, u1.threads[t]);
    assert u2 == SetThread(SetFiber(v2, q, u2.heap[q]), t, u2.threads[t]);
  }

  lemma ActedAlike(f: Ref, g: Ref, x1: Fiber, x2: Fiber, r: Ref)
    requires FiberLike(f, g, x1, x2) && x1.log <= x1.prog && x1.refs > 0
    ensures FiberLike(f, g, Acted(x1, r), Acted(x2, Moved(f, g, r)))
    ensures Acted(x2, Moved(f, g, r)).state == Acted(x1, r).state && Acted(x2, Moved(f, g, r)).log == Acted(x1, r).log
  {
  }

  lemma ActAlike(s1: Sys, s2: Sys, f: Ref, g: Ref, t: Tid)
    requires Alike(s1, s2, f, g) && Inv(s1) && Inv(s2) && Legal(s1, Act(t)) && Legal(s2, Act(t))
    ensures var o1, o2 := StepAct(s1, t), StepAct(s2, t); o1.Ok? && o2.Ok? ==> Alike(o1.s, o2.s, f, g)
  {
    hide Alike, Inv, StepAct, Acted;
    ActResult(s1, t);
    ActResult(s2, t);
    ThreadSeen(s1, s2, f, g, t);
    var r, q := s1.threads[t].exec.stack.f, s2.threads[t].exec.stack.f;
    FiberSeen(s1, s2, f, g, r);
    ActedAlike(f, g, s1.heap[r], s2.heap[q], r);
    var u1, u2 := AfterAct(s1, t), AfterAct(s2, t);
    SetFiberAlike(s1, s2, f, g, r, u1.heap[r], u2.heap[q]);
    SetThreadAlike(SetFiber(s1, r, u1.heap[r]), SetFiber(s2, q, u2.heap[q]), f, g, t, u1.threads[t], u2.threads[t]);
    assert u1 == SetThread(SetFiber(s1, r, u1.heap[r]), t, u1.threads[t]);
    assert u2 == SetThread(SetFiber(s2, q, u2.heap[q]), t, u2.threads[t]);
  }

  lemma StepAlike(s1: Sys, s2: Sys, f: Ref, g: Ref, c: Command)
    requires Alike(s1, s2, f, g) && Inv(s1) && Inv(s2) && Legal(s1, c) && Legal(s2, MovedCommand(f, g, c))
    ensures Good(Step(s1, c)) && Good(Step(s2, MovedCommand(f, g, c)))
    ensures Alike(Step(s1, c).s, Step(s2, MovedCommand(f, g, c)).s, f, g)
  {
    hide Alike, Inv, StepGetThis, StepNewBegin, StepNewEnd, StepSwapIn, StepAct, StepReset, StepCopy, StepDrop,
        StepExit, Legal;
    NamesThread(s1, c);
    NamesThread(s2, MovedCommand(f, g, c));
    StepKeeps(s1, c);
    StepKeeps(s2, MovedCommand(f, g, c));
    match c
    case GetThis(t) => GetThisAlike(s1, s2, f, g, t);
    case NewBegin(t) => NewAlike(s1, s2, f, g, t, []);
    case NewEnd(t, script) => NewAlike(s1, s2, f, g, t, script);
    case SwapIn(t, r) => SwapInAlike(s1, s2, f, g, t, r);
    case Act(t) => ActAlike(s1, s2, f, g, t);
    case Reset(_, r, script) => ResetAlike(s1, s2, f, g, r, script);
    case Copy(_, r) => CopyAlike(s1, s2, f, g, r);
    case Drop(t, r) => DropAlike(s1, s2, f, g, t, r);
    case Exit(t) => ExitAlike(s1, s2, f, g, t);
  }

  /** The two systems allow the same runs, and stay alike in all of them. */
  lemma {:induction false} RunAlike(s1: Sys, s2: Sys, f: Ref, g: Ref, cs: seq<Command>)
    requires Alike(s1, s2, f, g) && Inv(s1) && Inv(s2)
    ensures LegalRun(s1, cs) == LegalRun(s2, MovedRun(f, g, cs))
    ensures LegalRun(s1, cs) ==>
              && Good(Run(s1, cs)) && Good(Run(s2, MovedRun(f, g, cs)))
              && Alike(Run(s1, cs).s, Run(s2, MovedRun(f, g, cs)).s, f, g)
    decreases |cs|
  {
    hide Alike, Inv, Step, Legal;
    if cs == [] {
    } else {
      var d := MovedCommand(f, g, cs[0]);
      assert MovedRun(f, g, cs)[0] == d && MovedRun(f, g, cs)[1..] == MovedRun(f, g, cs[1..]);
      LegalAlike(s1, s2, f, g, cs[0]);
      if Legal(s1, cs[0]) {
        NamesThread(s1, cs[0]);
        NamesThread(s2, d);
        StepAlike(s1, s2, f, g, cs[0]);
        RunAlike(Step(s1, cs[0]).s, Step(s2, d).s, f, g, cs[1..]);
      }
    }
  }

  lemma NamesThread(s: Sys, c: Command)
    requires Legal(s, c)
    ensures c.t in s.threads
  {
  }

  // ---------- Reset and construction ----------

  function Copies(t: Tid, g: Ref, n: nat): seq<Command> {
    if n == 0 then [] else [Copy(t, g)] + Copies(t, g, n - 1)
  }

  /** Making another fiber, with as many outside pointers. */
  function Making(t: Tid, g: Ref, script: Script, handles: nat): seq<Command>
    requires handles > 0
  {
    [NewBegin(t), NewEnd(t, script)] + Copies(t, g, handles - 1)
  }

  lemma {:induction false} CopiesRun(s: Sys, t: Tid, g: Ref, n: nat)
    requires Inv(s) && g in s.heap && s.heap[g].handles > 0
    requires t in s.threads && !s.threads[t].exited && s.threads[t].pending.None?
    ensures LegalRun(s, Copies(t, g, n))
    ensures Run(s, Copies(t, g, n)) ==
            Ok(SetFiber(s, g, s.heap[g].(refs := s.heap[g].refs + n, handles := s.heap[g].handles + n)))
    ensures Good(Run(s, Copies(t, g, n)))
    decreases n
  {
    hide Inv;
    if n == 0 {
      assert s.heap[g := s.heap[g]] == s.heap;
    } else {
      CopyKeeps(s, g);
      var x := s.heap[g].(refs := s.heap[g].refs + 1, handles := s.heap[g].handles + 1);
      assert Copies(t, g, n)[1..] == Copies(t, g, n - 1);
      CopiesRun(SetFiber(s, g, x), t, g, n - 1);
      TwiceSet(s, g, x, x.(refs := x.refs + (n - 1), handles := x.handles + (n - 1)));
    }
  }

  /** What the constructor's two steps and the copies leave. */
  function Made(s: Sys, t: Tid, script: Script, handles: nat): Sys
    requires t in s.threads
  {
    var g := s.nextRef;
    SetFiber(s, g, NewFiber(g, s.fiberId + 1, t, script).(refs := handles, handles := handles))
    .(nextRef := g + 1, fiberCount := s.fiberCount + 1, fiberId := s.fiberId + 1)
  }

  /** The constructor's two steps. */
  lemma Construction(s: Sys, t: Tid, script: Script)
    requires Inv(s) && t in s.threads && !s.threads[t].exited && s.threads[t].pending.None?
    ensures Legal(s, NewBegin(t)) && Step(s, NewBegin(t)).Ok?
    ensures var s1 := Step(s, NewBegin(t)).s;
            && Legal(s1, NewEnd(t, script)) && Good(Step(s1, NewEnd(t, script)))
            && Step(s1, NewEnd(t, script)).s == Made(s, t, script, 1)
  {
    hide Inv;
    NewBeginKeeps(s, t);
    var s1 := StepNewBegin(s, t).s;
    NewEndKeeps(s1, t, script);
    var th := s.threads[t].(pending := Some(s.fiberId + 1));
    assert s.threads[t := th][t := th.(pending := None)] == s.threads;
  }

  lemma MoreCopies(s: Sys, t: Tid, script: Script, handles: nat)
    requires t in s.threads && handles > 0
    ensures var s1, g := Made(s, t, script, 1), s.nextRef;
            && g in s1.heap && s1.heap[g].handles == s1.heap[g].refs == 1
            && s1.threads == s.threads
            && Made(s, t, script, handles) ==
               SetFiber(s1, g, s1.heap[g].(refs := 1 + (handles - 1), handles := 1 + (handles - 1)))
  {
  }

  /** The state that a reset is compared with is what the constructor's steps and
      the copies of the pointer leave, wherever the thread can take them. */
  lemma MakingRun(s: Sys, t: Tid, script: Script, handles: nat)
    requires Inv(s) && t in s.threads && !s.threads[t].exited && s.threads[t].pending.None? && handles > 0
    ensures LegalRun(s, Making(t, s.nextRef, script, handles))
    ensures Run(s, Making(t, s.nextRef, script, handles)) == Ok(Made(s, t, script, handles))
    ensures Inv(Made(s, t, script, handles))
  {
    hide Inv, Legal, Step, Copies, Run, LegalRun, StepNewBegin, StepNewEnd, Made, SetFiber;
    var g := s.nextRef;
    Construction(s, t, script);
    MoreCopies(s, t, script, handles);
    var s1, s2 := Step(s, NewBegin(t)).s, Made(s, t, script, 1);
    CopiesRun(s2, t, g, handles - 1);
    var cs := Making(t, g, script, handles);
    assert cs[1..][1..] == Copies(t, g, handles - 1);
    NamesThread(s, NewBegin(t));
    NamesThread(s1, NewEnd(t, script));
    RunTwo(s, cs, s1, s2);
  }

  lemma RunTwo(s: Sys, cs: seq<Command>, s1: Sys, s2: Sys)
    requires |cs| >= 2 && cs[0].t in s.threads && cs[1].t in s1.threads
    requires Step(s, cs[0]) == Ok(s1) && Step(s1, cs[1]) == Ok(s2)
    ensures Run(s, cs) == Run(s2, cs[1..][1..])
    ensures Legal(s, cs[0]) && Legal(s1, cs[1]) && LegalRun(s2, cs[1..][1..]) ==> LegalRun(s, cs)
  {
    hide Step, Legal;
  }

  lemma UnmovedThread(s: Sys, f: Ref, t: Tid)
    requires Inv(s) && f in s.heap && s.heap[f].stack && s.heap[f].state != EXEC && t in s.threads
    ensures ThreadLike(f, s.nextRef, s.threads[t], s.threads[t])
  {
    hide IdsOk, Progress, SavedRight;
    assert ThreadOk(s, t) && FiberOkIn(s, f);
    var th := s.threads[t];
    if th.last.Some? {
      assert FiberOkIn(s, th.last.value);
    }
    if th.exec.stack.OnFiber? {
      assert FiberOkIn(s, th.exec.stack.f);
    }
  }

  lemma UnmovedFiber(s: Sys, f: Ref, r: Ref)
    requires Inv(s) && r in s.heap && r != f
    ensures r < s.nextRef && MovedCtx(f, s.nextRef, s.heap[r].ctx) == s.heap[r].ctx
  {
    hide IdsOk, ThreadsOk, Progress, SavedRight;
    assert FiberOkIn(s, r);
  }

  lemma AtRest(s: Sys, f: Ref)
    requires Inv(s) && f in s.heap && s.heap[f].stack && Restartable(s.heap[f].state)
    ensures f < s.nextRef && s.nextRef !in s.heap && s.heap[f].refs == s.heap[f].handles
    ensures s.heap[f].owner in s.threads
  {
    hide IdsOk, ThreadsOk, Progress, SavedRight;
    assert FiberOkIn(s, f);
    assert s.nextRef in s.heap ==> FiberOkIn(s, s.nextRef);
  }

  lemma EntryMoves(f: Ref, g: Ref)
    ensures MovedCtx(f, g, Ctx(OnFiber(f), Entry)) == Ctx(OnFiber(g), Entry)
  {
  }

  /** The state with the made fiber, whatever its thread is doing. */
  lemma MadeOk(s: Sys, t: Tid, script: Script, handles: nat)
    requires Inv(s) && t in s.threads && handles > 0
    ensures Inv(Made(s, t, script, handles))
  {
    hide FiberOk, ThreadOk, IdsOk, Confined, FiberOkIn, Refers;
    var s', g := Made(s, t, script, handles), s.nextRef;
    NextRefFresh(s);
    MadeConfined(s, t, script, handles);
    assert ThreadOk(s', t) by { KeepThread(s, s', t); }
    MadeFiberOk(s, t, script, handles);
    Assemble(s, s', t, {g});
    MadeIds(s, t, script, handles);
    assert s'.heap.Keys == s.heap.Keys + {g};
    Conclude(s');
  }

  lemma MadeConfined(s: Sys, t: Tid, script: Script, handles: nat)
    requires t in s.threads && s.nextRef !in s.heap && forall u :: u in s.threads ==> !Refers(s.threads[u], s.nextRef)
    ensures Confined(s, Made(s, t, script, handles), t, {s.nextRef})
  {
    hide Neutral, SameShape, Refers;
    forall r { NeutralSelf(r, s.threads[t]); }
  }

  lemma MadeFiberOk(s: Sys, t: Tid, script: Script, handles: nat)
    requires t in s.threads && handles > 0 && !Refers(s.threads[t], s.nextRef)
    ensures FiberOkIn(Made(s, t, script, handles), s.nextRef)
  {
  }

  lemma MadeIds(s: Sys, t: Tid, script: Script, handles: nat)
    requires IdsOk(s) && t in s.threads && s.nextRef !in s.heap
    ensures IdsOk(Made(s, t, script, handles))
  {
  }

  lemma StartAlike(s: Sys, t: Tid, f: Ref, script: Script)
    requires Inv(s) && Legal(s, Reset(t, f, script))
    ensures StepReset(s, f, script).Ok? && f < s.nextRef && s.heap[f].refs == s.heap[f].handles
    ensures s.heap[f].owner in s.threads
    ensures Alike(StepReset(s, f, script).s, Made(s, s.heap[f].owner, script, s.heap[f].handles), f, s.nextRef)
  {
    hide Inv, ThreadLike, MovedCtx;
    AtRest(s, f);
    var g := s.nextRef;
    EntryMoves(f, g);
    forall u | u in s.threads ensures ThreadLike(f, g, s.threads[u], s.threads[u]) {
      UnmovedThread(s, f, u);
    }
    forall r | r in s.heap && r != f ensures r < g && MovedCtx(f, g, s.heap[r].ctx) == s.heap[r].ctx {
      UnmovedFiber(s, f, r);
    }
  }

  /** After a reset everything goes as if the constructor had been called instead
      on the fiber's thread, for the same callback, and as many pointers had been
      taken to the new fiber: the same commands are legal, with the new fiber in
      the place of the reset one, and every fiber and thread goes through the same
      states. The reset fiber's id, its stack and the counters are what they were. */
  lemma ResetIsNew(s: Sys, t: Tid, f: Ref, script: Script, cs: seq<Command>)
    requires Inv(s) && Legal(s, Reset(t, f, script))
    ensures Good(Step(s, Reset(t, f, script))) && s.heap[f].owner in s.threads
    ensures var s1 := Step(s, Reset(t, f, script)).s;
            var s2 := Made(s, s.heap[f].owner, script, s.heap[f].handles);
            && f in s1.heap && s1.heap[f].id == s.heap[f].id && s1.heap[f].stack
            && s1.fiberCount == s.fiberCount && s1.fiberId == s.fiberId
            && var ds := MovedRun(f, s.nextRef, cs);
            && LegalRun(s1, cs) == LegalRun(s2, ds)
            && (LegalRun(s1, cs) ==>
                  Run(s1, cs).Ok? && Run(s2, ds).Ok? && Alike(Run(s1, cs).s, Run(s2, ds).s, f, s.nextRef))
  {
    hide Inv, Alike, Run, LegalRun, Made;
    StepKeeps(s, Reset(t, f, script));
    StartAlike(s, t, f, script);
    MadeOk(s, s.heap[f].owner, script, s.heap[f].handles);
    RunAlike(Step(s, Reset(t, f, script)).s, Made(s, s.heap[f].owner, script, s.heap[f].handles), f, s.nextRef, cs);
  }
}

/** The code of src/fiber.cpp over objects that it updates in place: control
    blocks, thread-local pointers and global counters. Each method does exactly
    the step of the fiber machine it stands for. */
module FiberRuntime {
  import opened M = FiberMachine
  import S = FiberSafety
  import opened Options

  class Fiber {
    const address: Ref
    const m_stack: bool
    var m_id: nat
    var m_state: State
    var m_ctx: Ctx
    var m_cb: Option<Script>
    var use_count: nat
    ghost const owner: Tid
    ghost var handles: nat
    ghost var prog: Script
    ghost var log: Script
    ghost var swaps: nat

    ghost function Value(): M.Fiber reads this {
      M.Fiber(m_id, m_state, m_ctx, m_cb, m_stack, use_count, owner, handles, prog, log, swaps)
    }

    constructor (address: Ref, ghost r: M.Fiber, id: nat, state: State, ctx: Ctx, cb: Option<Script>, stack: bool,
        count: nat)
      requires id == r.id && state == r.state && ctx == r.ctx && cb == r.cb && stack == r.stack && count == r.refs
      ensures Value() == r && this.address == address
    {
      this.address := address;
      m_stack, m_id, m_state, m_ctx, m_cb, use_count := stack, id, state, ctx, cb, count;
      owner, handles, prog, log, swaps := r.owner, r.handles, r.prog, r.log, r.swaps;
    }
  }

  /** The thread-local pointers, with the stack and program point the thread
      executes and an id it has drawn for a fiber under construction. */
  class Thread {
    const tid: Tid
    var cur_fiber: Fiber?
    var last_s_fiber: Fiber?
    var exec: Ctx
    var pending: Option<nat>
    ghost var call: Option<Call>
    ghost var exited: bool

    ghost function Value(): M.Thread reads this {
      M.Thread(Address(cur_fiber), Address(last_s_fiber), exec, call, pending, exited)
    }
  }

  function Address(p: Fiber?): Option<Ref> {
    if p == null then None else Some(p.address)
  }

  class Runtime {
    var fibers: map<Ref, Fiber>
    var threads: map<Tid, Thread>
    var nextRef: Ref
    var g_fiber_id: nat
    var g_fiber_count: int

    /** Addresses are never used twice: a pointer is to the control block at its
        address, or to one that is gone. */
    ghost predicate PointerOk(p: Fiber?) reads this {
      p != null ==> p.address < nextRef && (p.address in fibers ==> fibers[p.address] == p)
    }

    ghost predicate Valid() reads this, threads.Values {
      && (forall f :: f in fibers ==> fibers[f].address == f && f < nextRef)
      && (forall t :: t in threads ==>
            threads[t].tid == t && PointerOk(threads[t].cur_fiber) && PointerOk(threads[t].last_s_fiber))
    }

    ghost function Heap(): map<Ref, M.Fiber>
      reads this, fibers.Values
    {
      map f | f in fibers :: fibers[f].Value()
    }

    ghost function Abs(): Sys
      reads this, fibers.Values, threads.Values
    {
      Sys(Heap(), map t | t in threads :: threads[t].Value(), nextRef, g_fiber_id, g_fiber_count)
    }

    ghost predicate Owns(p: Fiber) reads this {
      p.address in fibers && fibers[p.address] == p
    }

    ghost predicate Runs(th: Thread) reads this {
      th.tid in threads && threads[th.tid] == th
    }

    /** What the abstract state says about a thread and about control blocks. */
    lemma Sees(th: Thread)
      requires Valid() && Runs(th)
      ensures th.tid in Abs().threads && Abs().threads[th.tid] == th.Value()
      ensures forall f :: f in Abs().heap <==> f in fibers
      ensures forall f :: f in fibers ==> Abs().heap[f] == fibers[f].Value()
      ensures Abs().nextRef == nextRef && Abs().fiberId == g_fiber_id && Abs().fiberCount == g_fiber_count
    {
    }

    lemma SeesFiber(p: Fiber)
      requires Valid() && Owns(p)
      ensures p.address in Abs().heap && Abs().heap[p.address] == p.Value()
    {
    }

    /** A control block in the map is at its address. */
    lemma Found(f: Ref)
      requires Valid() && f in fibers
      ensures Owns(fibers[f]) && fibers[f].address == f
    {
    }

    /** Writing one control block changes one record. */
    twostate lemma Wrote(p: Fiber)
      requires old(Valid()) && old(Owns(p)) && unchanged(this)
      requires forall f :: f in fibers && f != p.address ==> unchanged(fibers[f])
      requires forall t :: t in threads ==> unchanged(threads[t])
      ensures Abs() == SetFiber(old(Abs()), p.address, p.Value())
    {
      forall f | f in fibers && f != p.address ensures fibers[f].Value() == old(fibers[f].Value()) {
        assert unchanged(fibers[f]);
      }
      assert Abs().heap == old(Abs()).heap[p.address := p.Value()];
      SameThreads();
    }

    twostate lemma SameThreads()
      requires old(threads) == threads && forall t :: t in threads ==> unchanged(threads[t])
      ensures Abs().threads == old(Abs()).threads
    {
      forall t | t in threads ensures threads[t].Value() == old(threads[t].Value()) {
        assert unchanged(threads[t]);
      }
    }

    /** Writing one thread's variables changes one thread. */
    twostate lemma WroteThread(th: Thread)
      requires old(Valid()) && old(Runs(th)) && old(threads) == threads
      requires forall t :: t in threads && t != th.tid ==> unchanged(threads[t])
      ensures Abs().threads == old(Abs()).threads[th.tid := th.Value()]
    {
      forall t | t in threads && t != th.tid ensures threads[t].Value() == old(threads[t].Value()) {
        assert unchanged(threads[t]);
      }
    }

    twostate lemma SameFibers()
      requires old(fibers) == fibers && forall f :: f in fibers ==> unchanged(fibers[f])
      ensures Abs().heap == old(Abs()).heap
    {
      forall f | f in fibers ensures fibers[f].Value() == old(fibers[f].Value()) {
        assert unchanged(fibers[f]);
      }
    }

    twostate lemma Removed(f: Ref)
      requires old(Valid()) && f in old(fibers) && fibers == old(fibers) - {f}
      requires forall g :: g in fibers ==> unchanged(fibers[g])
      ensures Abs().heap == old(Abs()).heap - {f}
    {
      forall g | g in fibers ensures fibers[g].Value() == old(fibers[g].Value()) {
        assert unchanged(fibers[g]);
      }
    }

    /** Writing one thread's variables and nothing else. */
    twostate lemma WroteOnlyThread(th: Thread)
      requires old(Valid()) && old(Runs(th)) && unchanged(this)
      requires forall t :: t in threads && t != th.tid ==> unchanged(threads[t])
      requires forall f :: f in fibers ==> unchanged(fibers[f])
      ensures Abs() == SetThread(old(Abs()), th.tid, th.Value())
    {
      WroteThread(th);
      SameFibers();
    }

    // shared_ptr's copy and release

    method AddRef(p: Fiber)
      requires Valid() && Owns(p)
      modifies p`use_count
      ensures Valid()
      ensures p.use_count == old(p.use_count) + 1
      ensures Abs() == SetFiber(old(Abs()), p.address, p.Value())
    {
      p.use_count := p.use_count + 1;
      Wrote(p);
    }

    method SetThis(th: Thread, p: Fiber?)
      requires Valid() && Runs(th) && PointerOk(p)
      modifies th`cur_fiber
      ensures Valid() && th.cur_fiber == p
      ensures Abs() == SetThread(old(Abs()), th.tid, old(th.Value()).(cur := Address(p)))
    {
      th.cur_fiber := p;
      WroteOnlyThread(th);
    }

    /** The count goes down and the control block is gone, with its stack. */
    method Free(p: Fiber)
      requires Valid() && Owns(p)
      modifies this`fibers, this`g_fiber_count
      ensures Valid() && fibers == old(fibers) - {p.address}
      ensures Abs() == old(Abs()).(heap := old(Abs()).heap - {p.address}, fiberCount := old(g_fiber_count) - 1)
    {
      g_fiber_count := g_fiber_count - 1;
      fibers := fibers - {p.address};
      Removed(p.address);
      SameThreads();
    }

    /** ~Fiber */
    method Destroy(th: Thread, p: Fiber)
      requires Valid() && Runs(th) && Owns(p)
      requires M.Destroy(Abs(), th.tid, p.address).Ok?
      modifies this`fibers, this`g_fiber_count, th`cur_fiber
      ensures Valid() && fibers == old(fibers) - {p.address}
      ensures M.Destroy(old(Abs()), th.tid, p.address) == Ok(Abs())
    {
      hide M.Destroy;
      DestroyResult(Abs(), th.tid, p.address);
      Free(p);
      if !p.m_stack && th.cur_fiber == p {
        SetThis(th, null);
      }
    }

    method Release(th: Thread, p: Fiber)
      requires Valid() && Runs(th) && Owns(p)
      requires M.Release(Abs(), th.tid, p.address).Ok?
      modifies p`use_count, this`fibers, this`g_fiber_count, th`cur_fiber
      ensures Valid() && Survivors(old(fibers)) &&
                (old(p.use_count) > 1 ==> fibers == old(fibers) && th.cur_fiber == old(th.cur_fiber))
      ensures M.Release(old(Abs()), th.tid, p.address) == Ok(Abs())
    {
      p.use_count := p.use_count - 1;
      Wrote(p);
      if p.use_count == 0 {
        Destroy(th, p);
      }
    }

    /** The control blocks of `before` that are still alive, as they were. */
    ghost predicate Survivors(before: map<Ref, Fiber>) reads this {
      fibers.Keys <= before.Keys && forall f :: f in fibers ==> fibers[f] == before[f]
    }

    // swapcontext

    method SetExec(th: Thread, c: Ctx)
      requires Valid() && Runs(th)
      modifies th`exec
      ensures Valid()
      ensures th.exec == c && Abs() == SetThread(old(Abs()), th.tid, old(th.Value()).(exec := c))
    {
      th.exec := c;
      WroteOnlyThread(th);
    }

    method SetContext(p: Fiber, c: Ctx)
      requires Valid() && Owns(p)
      modifies p`m_ctx
      ensures Valid()
      ensures Abs() == SetFiber(old(Abs()), p.address, old(p.Value()).(ctx := c))
    {
      p.m_ctx := c;
      Wrote(p);
    }

    ghost method ReturnFromCall(th: Thread)
      requires Valid() && Runs(th)
      modifies th`call
      ensures Valid() && Abs() == SetThread(old(Abs()), th.tid, old(th.Value()).(call := None))
    {
      th.call := None;
      WroteOnlyThread(th);
    }

    /** The beginning of MainFunc: its local takes a pointer to the current fiber. */
    method EnterMainFunc(th: Thread, cur: Fiber)
      requires Valid() && Runs(th) && Owns(cur)
      modifies th`exec, cur`use_count
      ensures Valid()
      ensures Abs() == SetThread(SetFiber(old(Abs()), cur.address, old(cur.Value()).(refs := old(cur.use_count) + 1)),
                th.tid,
                                 old(th.Value()).(exec := Ctx(old(th.exec.stack), UserCode(cur.address, 0))))
    {
      AddRef(cur);
      SetExec(th, Ctx(th.exec.stack, UserCode(cur.address, 0)));
    }

    /** The return of a yield: its local gives its pointer back. */
    method LeaveYield(th: Thread, self: Ref, cur: Fiber, pc: nat)
      requires Valid() && Runs(th) && Owns(cur)
      requires M.Release(SetThread(Abs(), th.tid, th.Value().(exec := Ctx(th.exec.stack, UserCode(self, pc)))),
                 th.tid, cur.address).Ok?
      modifies th`exec, th`cur_fiber, cur`use_count, this`fibers, this`g_fiber_count
      ensures Valid() && Survivors(old(fibers))
      ensures Ok(Abs()) == M.Release(SetThread(old(Abs()), th.tid,
                old(th.Value()).(exec := Ctx(old(th.exec.stack), UserCode(self, pc)))),
                                     th.tid, cur.address)
    {
      hide M.Release;
      SetExec(th, Ctx(th.exec.stack, UserCode(self, pc)));
      Release(th, cur);
    }

    /** The code at the program point that a thread has just been switched to. */
    method Resume(th: Thread)
      requires Valid() && Runs(th) && M.Resume(Abs(), th.tid).Ok?
      modifies this`fibers, this`g_fiber_count, th, fibers.Values
      ensures Valid() && Survivors(old(fibers)) && threads == old(threads)
      ensures M.Resume(old(Abs()), th.tid) == Ok(Abs())
    {
      hide M.Resume, M.Release, Abs;
      Sees(th);
      ResumeResult(Abs(), th.tid);
      match th.exec.point
      case MainCode(_) => ReturnFromCall(th);
      case Entry => EnterMainFunc(th, th.cur_fiber);
      case AfterYield(self, cur, pc) => LeaveYield(th, self, fibers[cur], pc);
      case UserCode(_, _) =>
    }

    method SwapContext(th: Thread, save: Fiber, point: Point, load: Fiber)
      requires Valid() && Runs(th) && Owns(save) && Owns(load)
      requires M.Swap(Abs(), th.tid, save.address, point, load.address).Ok?
      modifies this`fibers, this`g_fiber_count, th, fibers.Values
      ensures Valid() && Survivors(old(fibers)) && threads == old(threads)
      ensures M.Swap(old(Abs()), th.tid, save.address, point, load.address) == Ok(Abs())
    {
      hide M.Resume, M.Swap, Abs;
      Sees(th);
      SwapIs(Abs(), th.tid, save.address, point, load.address);
      SetContext(save, Ctx(th.exec.stack, point));
      Sees(th);
      SetExec(th, load.m_ctx);
      Resume(th);
    }

    // Fiber's own operations

    method SwapOut(th: Thread, p: Fiber, point: Point)
      requires Valid() && Runs(th) && Owns(p)
      requires M.SwapOut(Abs(), th.tid, p.address, point).Ok?
      modifies this`fibers, this`g_fiber_count, th, fibers.Values
      ensures Valid() && Survivors(old(fibers)) && threads == old(threads)
      ensures M.SwapOut(old(Abs()), th.tid, p.address, point) == Ok(Abs())
    {
      hide M.SwapOut, M.Swap, Abs;
      Sees(th);
      SwapOutIs(Abs(), th.tid, p.address, point);
      SetThis(th, th.last_s_fiber);
      SwapContext(th, p, point, th.last_s_fiber);
    }

    method SetState(p: Fiber, st: State)
      requires Valid() && Owns(p)
      modifies p`m_state
      ensures Valid()
      ensures p.m_state == st && Abs() == SetFiber(old(Abs()), p.address, old(p.Value()).(state := st))
    {
      p.m_state := st;
      Wrote(p);
    }

    /** `m_state = EXEC`, noting that a swapIn has been received. */
    method MarkRunning(p: Fiber)
      requires Valid() && Owns(p)
      modifies p`m_state, p`swaps
      ensures Valid()
      ensures Abs() == SetFiber(old(Abs()), p.address, old(p.Value()).(state := EXEC, swaps := old(p.swaps) + 1))
    {
      p.m_state := EXEC;
      p.swaps := p.swaps + 1;
      Wrote(p);
    }

    /** `SetThis(this)`, noting which call the thread is in. */
    method SetThisInCall(th: Thread, p: Fiber, ghost call: Option<Call>)
      requires Valid() && Runs(th) && Owns(p)
      modifies th`cur_fiber, th`call
      ensures Valid()
      ensures Abs() == SetThread(old(Abs()), th.tid, old(th.Value()).(cur := Some(p.address), call := call))
    {
      th.call := call;
      th.cur_fiber := p;
      WroteOnlyThread(th);
    }

    method SwapIn(th: Thread, p: Fiber)
      requires Valid() && Runs(th) && Owns(p)
      requires M.StepSwapIn(Abs(), th.tid, p.address).Ok?
      modifies this`fibers, this`g_fiber_count, th, fibers.Values
      ensures Valid() && Survivors(old(fibers)) && threads == old(threads)
      ensures Ok(Abs()) == M.StepSwapIn(old(Abs()), th.tid, p.address)
    {
      hide M.StepSwapIn, M.Swap, Abs;
      Sees(th);
      SwapInIs(Abs(), th.tid, p.address);
      var point := AfterCall(th.exec.point);
      MarkRunning(p);
      SetThisInCall(th, p, CallFrom(th.exec.point, p.address, th.call));
      SwapContext(th, th.last_s_fiber, point, p);
    }

    /** GetThis, where the thread has a current fiber, and a yield's swapOut. */
    method Yield(th: Thread, self: Ref, pc: nat, st: State)
      requires Valid() && Runs(th) && M.StepYield(Abs(), th.tid, self, pc, st).Ok?
      modifies this`fibers, this`g_fiber_count, th, fibers.Values
      ensures Valid() && Survivors(old(fibers)) && threads == old(threads)
      ensures Ok(Abs()) == M.StepYield(old(Abs()), th.tid, self, pc, st)
    {
      hide M.StepYield, M.SwapOut, Abs;
      Sees(th);
      YieldIs(Abs(), th.tid, self, pc, st);
      var cur := th.cur_fiber;
      AddRef(cur);
      SetState(cur, st);
      SwapOut(th, cur, AfterYield(self, cur.address, pc + 1));
    }

    /** The end of MainFunc, after the callback has returned or thrown. */
    method Finish(th: Thread, self: Fiber, st: State)
      requires Valid() && Runs(th) && Owns(self)
      requires M.StepFinish(Abs(), th.tid, self.address, st).Ok?
      modifies this`fibers, this`g_fiber_count, th, fibers.Values
      ensures Valid() && Survivors(old(fibers)) && threads == old(threads)
      ensures Ok(Abs()) == M.StepFinish(old(Abs()), th.tid, self.address, st)
    {
      hide M.StepFinish, M.SwapOut, M.Release, Abs, SetFiber;
      Sees(th);
      FinishIs(Abs(), th.tid, self.address, st);
      SetEnded(self, st);
      Release(th, self);
      SwapOut(th, self, AfterLast);
    }

    method SetEnded(p: Fiber, st: State)
      requires Valid() && Owns(p)
      modifies p`m_state, p`m_cb
      ensures Valid()
      ensures Abs() == SetFiber(old(Abs()), p.address,
                                old(p.Value()).(state := st, cb := if st == TERM then None else old(p.m_cb)))
    {
      if st == TERM {
        p.m_cb := None;
      }
      p.m_state := st;
      Wrote(p);
    }

    ghost method Note(p: Fiber, a: Action)
      requires Valid() && Owns(p)
      modifies p`log
      ensures Valid()
      ensures Abs() == Log(old(Abs()), p.address, a)
    {
      p.log := p.log + [a];
      Wrote(p);
    }

    /** The callback's next action: work, a yield, a throw, or its return. */
    method RunCallback(th: Thread)
      requires Valid() && Runs(th) && M.StepAct(Abs(), th.tid).Ok?
      modifies this`fibers, this`g_fiber_count, th, fibers.Values
      ensures Valid() && Survivors(old(fibers)) && threads == old(threads)
      ensures Ok(Abs()) == M.StepAct(old(Abs()), th.tid)
    {
      hide M.StepAct, M.StepYield, M.StepFinish, Log, Abs, SetFiber, SetThread, Valid;
      Sees(th);
      ActIs(Abs(), th.tid);
      var pc := th.exec.point.pc;
      var self := fibers[th.exec.point.self];
      var script := self.m_cb.value;
      Found(th.exec.point.self);
      if pc == |script| {
        Finish(th, self, TERM);
      } else {
        var a := script[pc];
        Note(self, a);
        Sees(th);
        match a
        case Work(_) => SetExec(th, Ctx(th.exec.stack, UserCode(self.address, pc + 1)));
        case YieldHold => Yield(th, self.address, pc, HOLD);
        case YieldReady => Yield(th, self.address, pc, READY);
        case Throw => Finish(th, self, EXCEP);
      }
    }

    // Creation, reset and destruction

    /** A new control block at the next address, counted. */
    method Allocate(ghost r: M.Fiber, id: nat, state: State, ctx: Ctx, cb: Option<Script>, stack: bool, count: nat)
      returns (p: Fiber)
      requires Valid()
      requires id == r.id && state == r.state && ctx == r.ctx && cb == r.cb && stack == r.stack && count == r.refs
      modifies this`fibers, this`nextRef, this`g_fiber_count
      ensures Valid() && fresh(p) && p.address == old(nextRef) && Owns(p) && fibers == old(fibers)[p.address := p]
      ensures Abs() == SetFiber(old(Abs()), old(nextRef), r).(nextRef := old(nextRef) + 1,
                fiberCount := old(g_fiber_count) + 1)
    {
      p := new Fiber(nextRef, r, id, state, ctx, cb, stack, count);
      fibers := fibers[p.address := p];
      nextRef := nextRef + 1;
      g_fiber_count := g_fiber_count + 1;
      Added(p);
      SameThreads();
    }

    twostate lemma Added(new p: Fiber)
      requires fibers == old(fibers)[p.address := p]
      requires forall f :: f in old(fibers) ==> unchanged(old(fibers)[f])
      ensures Abs().heap == old(Abs()).heap[p.address := p.Value()]
    {
      forall f | f in fibers && f != p.address ensures fibers[f].Value() == old(fibers[f].Value()) {
        assert unchanged(old(fibers)[f]);
      }
    }

    method GetThis(th: Thread)
      requires Valid() && Runs(th) && M.StepGetThis(Abs(), th.tid).Ok?
      modifies this, th, fibers.Values
      ensures Valid() && threads == old(threads)
      ensures Ok(Abs()) == M.StepGetThis(old(Abs()), th.tid)
    {
      hide Abs;
      Sees(th);
      if th.cur_fiber != null {
        CopyPointer(th.cur_fiber);
      } else {
        ghost var m := M.Fiber(0, EXEC, Ctx(OnThread, th.exec.point), None, false, 2, th.tid, 1, [], [], 0);
        var fiber := Allocate(m, 0, EXEC, Ctx(OnThread, th.exec.point), None, false, 2);
        SetMain(th, fiber);
      }
    }

    method SetMain(th: Thread, p: Fiber)
      requires Valid() && Runs(th) && Owns(p)
      modifies th`cur_fiber, th`last_s_fiber
      ensures Valid()
      ensures Abs() == SetThread(old(Abs()), th.tid, old(th.Value()).(cur := Some(p.address), last := Some(p.address)))
    {
      th.cur_fiber := p;
      th.last_s_fiber := p;
      WroteOnlyThread(th);
    }

    method SetPending(th: Thread, id: Option<nat>)
      requires Valid() && Runs(th)
      modifies th`pending
      ensures Valid() && Abs() == SetThread(old(Abs()), th.tid, old(th.Value()).(pending := id))
    {
      th.pending := id;
      WroteOnlyThread(th);
    }

    method NextId() returns (id: nat)
      modifies this`g_fiber_id
      ensures old(Valid()) ==> Valid()
      ensures id == g_fiber_id == old(g_fiber_id) + 1 && Abs() == old(Abs()).(fiberId := id)
    {
      g_fiber_id := g_fiber_id + 1;
      id := g_fiber_id;
      SameFibers();
      SameThreads();
    }

    /** The public constructor up to `m_id(++g_fiber_id)`. */
    method DrawId(th: Thread)
      requires Valid() && Runs(th)
      modifies this`g_fiber_id, th`pending
      ensures Valid() && Ok(Abs()) == M.StepNewBegin(old(Abs()), th.tid)
    {
      hide Abs;
      Sees(th);
      var id := NextId();
      SetPending(th, Some(id));
    }

    /** The rest of the public constructor. */
    method Construct(th: Thread, script: Script)
      requires Valid() && Runs(th) && th.pending.Some?
      modifies this, th`pending
      ensures Valid() && threads == old(threads)
      ensures Ok(Abs()) == M.StepNewEnd(old(Abs()), th.tid, script)
    {
      hide Abs;
      Sees(th);
      var fiber := Allocate(NewFiber(nextRef, th.pending.value, th.tid, script), th.pending.value, INIT,
                            Ctx(OnFiber(nextRef), Entry), Some(script), true, 1);
      SetPending(th, None);
    }

    /** The fields that reset writes, and what the proofs observe of it. */
    method SetStart(p: Fiber, cb: Script)
      requires Valid() && Owns(p)
      modifies p`m_cb, p`m_ctx, p`m_state, p`prog, p`log, p`swaps
      ensures Valid()
      ensures Abs() == SetFiber(old(Abs()), p.address,
                                old(p.Value()).(cb := Some(cb), ctx := Ctx(OnFiber(p.address), Entry), state := INIT,
                                                prog := cb, log := [], swaps := 0))
    {
      p.m_cb := Some(cb);
      p.m_ctx := Ctx(OnFiber(p.address), Entry);
      p.m_state := INIT;
      p.prog, p.log, p.swaps := cb, [], 0;
      Wrote(p);
    }

    method Reset(p: Fiber, cb: Script)
      requires Valid() && Owns(p) && p.m_stack && Restartable(p.m_state)
      modifies p
      ensures Valid() && Ok(Abs()) == M.StepReset(old(Abs()), p.address, cb)
    {
      hide Abs, Valid;
      SeesFiber(p);
      SetStart(p, cb);
    }

    method CountPointer(p: Fiber)
      requires Valid() && Owns(p)
      modifies p`use_count, p`handles
      ensures Valid()
      ensures Abs() == SetFiber(old(Abs()), p.address,
                                old(p.Value()).(refs := old(p.use_count) + 1, handles := old(p.handles) + 1))
    {
      p.use_count := p.use_count + 1;
      p.handles := p.handles + 1;
      Wrote(p);
    }

    method CopyPointer(p: Fiber)
      requires Valid() && Owns(p)
      modifies p`use_count, p`handles
      ensures Valid() && Ok(Abs()) == M.StepCopy(old(Abs()), p.address)
    {
      hide Abs, Valid, SetFiber;
      SeesFiber(p);
      CountPointer(p);
    }

    ghost method GiveUpHandle(p: Fiber)
      requires Valid() && Owns(p) && p.handles > 0
      modifies p`handles
      ensures Valid()
      ensures Abs() == SetFiber(old(Abs()), p.address, old(p.Value()).(handles := old(p.handles) - 1))
    {
      p.handles := p.handles - 1;
      Wrote(p);
    }

    method DropPointer(th: Thread, p: Fiber)
      requires Valid() && Runs(th) && Owns(p) && M.StepDrop(Abs(), th.tid, p.address).Ok?
      modifies p`use_count, p`handles, this`fibers, this`g_fiber_count, th`cur_fiber
      ensures Valid() && Survivors(old(fibers))
      ensures Ok(Abs()) == M.StepDrop(old(Abs()), th.tid, p.address)
    {
      hide M.Release, Abs;
      Sees(th);
      GiveUpHandle(p);
      Release(th, p);
    }

    /** The end of a thread: its `last_s_fiber` is destroyed. */
    method ExitThread(th: Thread)
      requires Valid() && Runs(th) && M.StepExit(Abs(), th.tid).Ok?
      modifies this`fibers, this`g_fiber_count, th, fibers.Values
      ensures Valid() && Survivors(old(fibers)) && threads == old(threads)
      ensures Ok(Abs()) == M.StepExit(old(Abs()), th.tid)
    {
      hide M.Release, Abs;
      Sees(th);
      ReleaseAlive(Abs(), th.tid);
      var last := th.last_s_fiber;
      ClearLast(th);
      if last != null {
        Release(th, last);
      }
    }

    method ClearLast(th: Thread)
      requires Valid() && Runs(th)
      modifies th`last_s_fiber, th`exited
      ensures Valid() && Abs() == SetThread(old(Abs()), th.tid, old(th.Value()).(last := None, exited := true))
    {
      th.last_s_fiber := null;
      th.exited := true;
      WroteOnlyThread(th);
    }

    /** What a command names is there. */
    lemma ExecuteReady(th: Thread, c: Command)
      requires Valid() && Runs(th) && c.t == th.tid && Legal(Abs(), c)
      ensures c.SwapIn? || c.Reset? || c.Copy? || c.Drop? ==>
                c.f in fibers && Owns(fibers[c.f]) && fibers[c.f].address == c.f
      ensures c.Reset? ==> fibers[c.f].m_stack && Restartable(fibers[c.f].m_state)
      ensures c.NewEnd? ==> th.pending.Some?
    {
      Sees(th);
    }

    /** Any command within the usage rule: the objects do the machine's step, and
        every reachable state's invariant holds again. */
    method Execute(th: Thread, c: Command)
      requires Valid() && Runs(th) && c.t == th.tid
      requires S.Inv(Abs()) && Legal(Abs(), c)
      modifies this, th, fibers.Values
      ensures Valid() && threads == old(threads)
      ensures S.Inv(Abs()) && Step(old(Abs()), c) == Ok(Abs())
    {
      hide S.Inv, Abs, Valid, M.StepGetThis, M.StepNewBegin, M.StepNewEnd, M.StepSwapIn, M.StepAct, M.StepReset,
           M.StepCopy, M.StepDrop, M.StepExit;
      Sees(th);
      S.StepKeeps(Abs(), c);
      ExecuteReady(th, c);
      match c
      case GetThis(_) => GetThis(th);
      case NewBegin(_) => DrawId(th);
      case NewEnd(_, script) => Construct(th, script);
      case SwapIn(_, f) => SwapIn(th, fibers[f]);
      case Act(_) => RunCallback(th);
      case Reset(_, f, script) => Reset(fibers[f], script);
      case Copy(_, f) => CopyPointer(fibers[f]);
      case Drop(_, f) => DropPointer(th, fibers[f]);
      case Exit(_) => ExitThread(th);
    }
  }

  lemma ResumeResult(s: Sys, t: Tid)
    requires t in s.threads && M.Resume(s, t).Ok?
    ensures var th := s.threads[t];
            match th.exec.point {
              case MainCode(_) => M.Resume(s, t) == Ok(SetThread(s, t, th.(call := None)))
              case Entry =>
                && th.cur.Some? && th.cur.value in s.heap
                && M.Resume(s, t) ==
                   Ok(SetThread(SetFiber(s, th.cur.value,
                       s.heap[th.cur.value].(refs := s.heap[th.cur.value].refs + 1)), t,
                                th.(exec := Ctx(th.exec.stack, UserCode(th.cur.value, 0)))))
              case AfterYield(self, cur, pc) =>
                && cur in s.heap
                && M.Resume(s, t) == M.Release(SetThread(s, t, th.(exec := Ctx(th.exec.stack, UserCode(self, pc)))),
                    t, cur)
              case UserCode(_, _) => M.Resume(s, t) == Ok(s)
              case AfterLast => false
            }
  {
  }

  lemma SwapIs(s: Sys, t: Tid, save: Ref, point: Point, load: Ref)
    requires t in s.threads && save in s.heap && load in s.heap
    ensures var s1 := SetFiber(s, save, s.heap[save].(ctx := Ctx(s.threads[t].exec.stack, point)));
            M.Swap(s, t, save, point, load) == M.Resume(SetThread(s1, t, s.threads[t].(exec := s1.heap[load].ctx)), t)
  {
  }

  lemma SwapOutIs(s: Sys, t: Tid, f: Ref, point: Point)
    requires t in s.threads && M.SwapOut(s, t, f, point).Ok?
    ensures s.threads[t].last.Some? && s.threads[t].last.value in s.heap && f in s.heap
    ensures M.SwapOut(s, t, f, point)
         == M.Swap(SetThread(s, t, s.threads[t].(cur := s.threads[t].last)), t, f, point, s.threads[t].last.value)
  {
    hide M.Resume;
  }

  /** Where a swapIn call returns to. */
  function AfterCall(p: Point): Point {
    if p.MainCode? then MainCode(p.calls + 1) else p
  }

  function CallFrom(p: Point, f: Ref, call: Option<Call>): Option<Call> {
    if p.MainCode? then Some(Call(f, p.calls + 1)) else call
  }

  lemma SwapInIs(s: Sys, t: Tid, f: Ref)
    requires t in s.threads && M.StepSwapIn(s, t, f).Ok?
    ensures var th := s.threads[t];
            && f in s.heap && th.last.Some? && th.last.value in s.heap
            && M.StepSwapIn(s, t, f) ==
               M.Swap(SetThread(SetFiber(s, f, s.heap[f].(state := EXEC, swaps := s.heap[f].swaps + 1)), t,
                                th.(cur := Some(f), call := CallFrom(th.exec.point, f, th.call))),
                      t, th.last.value, AfterCall(th.exec.point), f)
  {
    hide M.Resume;
  }

  lemma YieldIs(s: Sys, t: Tid, self: Ref, pc: nat, st: State)
    requires t in s.threads && M.StepYield(s, t, self, pc, st).Ok?
    ensures var th := s.threads[t];
            && th.cur.Some? && th.cur.value in s.heap
            && var c := th.cur.value;
               var r := s.heap[c].(refs := s.heap[c].refs + 1);
               M.StepYield(s, t, self, pc, st) ==
               M.SwapOut(SetFiber(SetFiber(s, c, r), c, r.(state := st)), t, c, AfterYield(self, c, pc + 1))
  {
    hide M.SwapOut;
    var c := s.threads[t].cur.value;
    var r := s.heap[c].(refs := s.heap[c].refs + 1);
    S.TwiceSet(s, c, r, r.(state := st));
  }

  lemma FinishIs(s: Sys, t: Tid, self: Ref, st: State)
    requires t in s.threads && self in s.heap && M.StepFinish(s, t, self, st).Ok?
    ensures var s1 := SetFiber(s, self, s.heap[self].(state := st, cb := if st == TERM then None else s.heap[self].cb));
            var o := M.Release(s1, t, self);
            && s.heap[self].refs > 1
            && o == Ok(SetFiber(s1, self, s1.heap[self].(refs := s1.heap[self].refs - 1)))
            && M.StepFinish(s, t, self, st) == M.SwapOut(o.s, t, self, AfterLast)
  {
    hide M.Resume;
    var s1 := SetFiber(s, self, s.heap[self].(state := st, cb := if st == TERM then None else s.heap[self].cb));
    assert M.Release(s1, t, self).Ok? ==> t in M.Release(s1, t, self).s.threads;
  }

  lemma ActIs(s: Sys, t: Tid)
    requires t in s.threads && M.StepAct(s, t).Ok?
    ensures var th := s.threads[t];
            && th.exec.point.UserCode? && th.exec.point.self in s.heap
            && s.heap[th.exec.point.self].cb.Some?
            && var self, pc, script := th.exec.point.self, th.exec.point.pc, s.heap[th.exec.point.self].cb.value;
               && pc <= |script|
               && M.StepAct(s, t) ==
                  if pc == |script| then M.StepFinish(s, t, self, TERM)
                  else
                    var s1 := Log(s, self, script[pc]);
                    match script[pc] {
                      case Work(_) => Ok(SetThread(s1, t, th.(exec := Ctx(th.exec.stack, UserCode(self, pc + 1)))))
                      case YieldHold => M.StepYield(s1, t, self, pc, HOLD)
                      case YieldReady => M.StepYield(s1, t, self, pc, READY)
                      case Throw => M.StepFinish(s1, t, self, EXCEP)
                    }
  {
    hide M.StepYield, M.StepFinish;
  }

  lemma ReleaseAlive(s: Sys, t: Tid)
    requires t in s.threads && M.StepExit(s, t).Ok?
    ensures s.threads[t].last.Some? ==> s.threads[t].last.value in s.heap
  {
  }

  lemma DestroyResult(s: Sys, t: Tid, f: Ref)
    requires t in s.threads && f in s.heap && M.Destroy(s, t, f).Ok?
    ensures M.Destroy(s, t, f).s == s.(
              heap := s.heap - {f}, fiberCount := s.fiberCount - 1,
              threads := if !s.heap[f].stack && s.threads[t].cur == Some(f)
                         then s.threads[t := s.threads[t].(cur := None)] else s.threads)
  {
  }
}

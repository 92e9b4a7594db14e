/** The fiber machine of src/fiber.cpp: control blocks, contexts, the
    thread-local pointers and the global counters, for any number of threads.
    A step that would fail an assertion, follow a dead pointer, free a stack in
    use or resume the wrong code ends in a fault instead of a state. */
module FiberMachine {
  import opened Options

  type Ref = nat
  type Tid = nat

  datatype State = INIT | HOLD | EXEC | TERM | READY | EXCEP

  /** What a callback does between two calls into the library. Falling off the
      end of the script is its normal return. */
  datatype Action = Work(n: int) | YieldHold | YieldReady | Throw
  type Script = seq<Action>

  datatype Stack = OnThread | OnFiber(f: Ref)

  /** Program points, with the shared pointers living in the frames below them:
      `self` is MainFunc's local, `cur` the yield's. */
  datatype Point =
    | MainCode(calls: nat)                        // thread code that has made this many swapIn calls
    | Entry                                       // before the first instruction of MainFunc
    | UserCode(self: Ref, pc: nat)                // in the callback, at this action
    | AfterYield(self: Ref, cur: Ref, pc: nat)    // in the swapOut of a yield
    | AfterLast                                   // in the last swapOut, no pointer left

  datatype Ctx = Ctx(stack: Stack, point: Point)

  /** A control block. The first line is the class's own state with the shared
      pointer's count; the second is what the proofs observe: the thread it
      belongs to, the shared pointers held outside the library's own frames and
      variables, its script, the actions executed and the swapIns received since
      it was created or reset. */
  datatype Fiber = Fiber(
    id: nat, state: State, ctx: Ctx, cb: Option<Script>, stack: bool, refs: nat,
    owner: Tid, handles: nat, prog: Script, log: Script, swaps: nat)

  /** A swapIn call on `f` that returns to the thread's code as its call number `back`. */
  datatype Call = Call(f: Ref, back: nat)

  /** A thread: its two thread-local pointers and the stack and program point it
      really executes; the swapIn call it is in, if any; the id drawn by a fiber
      constructor that has not counted its fiber yet. */
  datatype Thread = Thread(
    cur: Option<Ref>, last: Option<Ref>, exec: Ctx,
    call: Option<Call>, pending: Option<nat>, exited: bool)

  datatype Sys = Sys(
    heap: map<Ref, Fiber>, threads: map<Tid, Thread>, nextRef: Ref,
    fiberId: nat, fiberCount: int)

  datatype Fault = AssertFailed | NullPointer | Dangling | FreedStack | WrongResume

  datatype Outcome = Ok(s: Sys) | Bad(fault: Fault)

  datatype Command =
    | GetThis(t: Tid)
    | NewBegin(t: Tid)                       // ++g_fiber_id
    | NewEnd(t: Tid, script: Script)         // ++g_fiber_count and the rest of the constructor
    | SwapIn(t: Tid, f: Ref)
    | Act(t: Tid)                            // the next action of the callback running on t
    | Reset(t: Tid, f: Ref, script: Script)
    | Copy(t: Tid, f: Ref)                   // copy a shared pointer
    | Drop(t: Tid, f: Ref)                   // destroy a shared pointer
    | Exit(t: Tid)                           // thread end: its last_s_fiber is destroyed

  const IDLE: Thread := Thread(None, None, Ctx(OnThread, MainCode(0)), None, None, false)

  // ---------- Building blocks ----------

  function SetFiber(s: Sys, f: Ref, r: Fiber): Sys { s.(heap := s.heap[f := r]) }

  function SetThread(s: Sys, t: Tid, th: Thread): Sys { s.(threads := s.threads[t := th]) }

  predicate Restartable(st: State) { st == INIT || st == TERM || st == EXCEP }

  /** ~Fiber, run on thread `t`. */
  function Destroy(s: Sys, t: Tid, f: Ref): Outcome
    requires t in s.threads && f in s.heap
  {
    var r := s.heap[f];
    var s1 := s.(fiberCount := s.fiberCount - 1, heap := s.heap - {f});
    if r.stack then
      if !Restartable(r.state) then Bad(AssertFailed)
      else if StackInUse(s, f) then Bad(FreedStack)
      else Ok(s1)
    else if r.cb.Some? || r.state != EXEC then Bad(AssertFailed)
    else if s.threads[t].cur == Some(f) then Ok(SetThread(s1, t, s.threads[t].(cur := None)))
    else Ok(s1)
  }

  /** Some thread executes on the fiber's stack, or a suspended frame on it
      still holds shared pointers. */
  predicate StackInUse(s: Sys, f: Ref)
    requires f in s.heap
  {
    || (exists t :: t in s.threads && s.threads[t].exec.stack == OnFiber(f))
    || s.heap[f].ctx.point.AfterYield? || s.heap[f].ctx.point.UserCode?
  }

  function Release(s: Sys, t: Tid, f: Ref): Outcome
    requires t in s.threads
  {
    if f !in s.heap || s.heap[f].refs == 0 then Bad(Dangling)
    else
      var r := s.heap[f].(refs := s.heap[f].refs - 1);
      if r.refs == 0 then Destroy(SetFiber(s, f, r), t, f) else Ok(SetFiber(s, f, r))
  }

  /** Execution goes on at the point a context was saved at. */
  function Resume(s: Sys, t: Tid): Outcome
    requires t in s.threads
  {
    var th := s.threads[t];
    match th.exec.point
    case MainCode(n) =>
      if th.exec.stack != OnThread || th.call.None? || th.call.value.back != n then Bad(WrongResume)
      else Ok(SetThread(s, t, th.(call := None)))
    case Entry =>
      if th.cur.None? || th.cur.value !in s.heap then Bad(Dangling)
      else
        var c := th.cur.value;
        Ok(SetThread(SetFiber(s, c, s.heap[c].(refs := s.heap[c].refs + 1)), t,
                     th.(exec := Ctx(th.exec.stack, UserCode(c, 0)))))
    case AfterYield(self, cur, pc) =>
      Release(SetThread(s, t, th.(exec := Ctx(th.exec.stack, UserCode(self, pc)))), t, cur)
    case UserCode(_, _) => Ok(s)
    case AfterLast => Bad(WrongResume)
  }

  /** swapcontext(&save->m_ctx, &load->m_ctx), called at `point`. */
  function Swap(s: Sys, t: Tid, save: Ref, point: Point, load: Ref): Outcome
    requires t in s.threads
  {
    if save !in s.heap || load !in s.heap then Bad(Dangling)
    else
      var th := s.threads[t];
      var s1 := SetFiber(s, save, s.heap[save].(ctx := Ctx(th.exec.stack, point)));
      Resume(SetThread(s1, t, th.(exec := s1.heap[load].ctx)), t)
  }

  /** swapOut of fiber `f` at `point`. */
  function SwapOut(s: Sys, t: Tid, f: Ref, point: Point): Outcome
    requires t in s.threads
  {
    var th := s.threads[t];
    if th.last.None? then Bad(NullPointer)
    else Swap(SetThread(s, t, th.(cur := th.last)), t, f, point, th.last.value)
  }

  // ---------- The operations ----------

  function StepGetThis(s: Sys, t: Tid): Outcome
    requires t in s.threads
  {
    var th := s.threads[t];
    if th.cur.Some? then StepCopy(s, th.cur.value)
    else
      var m := s.nextRef;
      var main := Fiber(0, EXEC, Ctx(OnThread, th.exec.point), None, false, 2, t, 1, [], [], 0);
      Ok(SetThread(SetFiber(s, m, main), t, th.(cur := Some(m), last := Some(m)))
         .(nextRef := m + 1, fiberCount := s.fiberCount + 1))
  }

  function StepNewBegin(s: Sys, t: Tid): Outcome
    requires t in s.threads
  {
    Ok(SetThread(s, t, s.threads[t].(pending := Some(s.fiberId + 1))).(fiberId := s.fiberId + 1))
  }

  /** The control block the public constructor leaves behind. */
  function NewFiber(f: Ref, id: nat, t: Tid, script: Script): Fiber {
    Fiber(id, INIT, Ctx(OnFiber(f), Entry), Some(script), true, 1, t, 1, script, [], 0)
  }

  function StepNewEnd(s: Sys, t: Tid, script: Script): Outcome
    requires t in s.threads
  {
    var th := s.threads[t];
    if th.pending.None? then Bad(AssertFailed)
    else
      var f := s.nextRef;
      Ok(SetThread(SetFiber(s, f, NewFiber(f, th.pending.value, t, script)), t, th.(pending := None))
         .(nextRef := f + 1, fiberCount := s.fiberCount + 1))
  }

  function StepReset(s: Sys, f: Ref, script: Script): Outcome {
    if f !in s.heap then Bad(Dangling)
    else
      var r := s.heap[f];
      if !r.stack || !Restartable(r.state) then Bad(AssertFailed)
      else
        Ok(SetFiber(s, f, r.(cb := Some(script), ctx := Ctx(OnFiber(f), Entry), state := INIT,
                             prog := script, log := [], swaps := 0)))
  }

  function StepSwapIn(s: Sys, t: Tid, f: Ref): Outcome
    requires t in s.threads
  {
    if f !in s.heap then Bad(Dangling)
    else if s.heap[f].state == EXEC then Bad(AssertFailed)
    else
      var th := s.threads[t];
      var s1 := SetFiber(s, f, s.heap[f].(state := EXEC, swaps := s.heap[f].swaps + 1));
      var point := if th.exec.point.MainCode? then MainCode(th.exec.point.calls + 1) else th.exec.point;
      var call := if point.MainCode? then Some(Call(f, point.calls)) else th.call;
      var s2 := SetThread(s1, t, th.(cur := Some(f), call := call));
      if th.last.None? then Bad(NullPointer) else Swap(s2, t, th.last.value, point, f)
  }

  function Log(s: Sys, f: Ref, a: Action): Sys
    requires f in s.heap
  {
    SetFiber(s, f, s.heap[f].(log := s.heap[f].log + [a]))
  }

  /** YieldToReady and YieldToHold, called from the callback of `self`. */
  function StepYield(s: Sys, t: Tid, self: Ref, pc: nat, st: State): Outcome
    requires t in s.threads
  {
    var th := s.threads[t];
    if th.cur.None? || th.cur.value !in s.heap then Bad(Dangling)
    else
      var c := th.cur.value;
      SwapOut(SetFiber(s, c, s.heap[c].(refs := s.heap[c].refs + 1, state := st)), t, c, AfterYield(self, c, pc + 1))
  }

  /** The end of MainFunc: give up its own pointer, then leave for good. */
  function StepFinish(s: Sys, t: Tid, self: Ref, st: State): Outcome
    requires t in s.threads && self in s.heap
  {
    var r := s.heap[self].(state := st, cb := if st == TERM then None else s.heap[self].cb);
    var o := Release(SetFiber(s, self, r), t, self);
    if o.Ok? && t in o.s.threads then SwapOut(o.s, t, self, AfterLast) else o
  }

  function StepAct(s: Sys, t: Tid): Outcome
    requires t in s.threads
  {
    var th := s.threads[t];
    if !th.exec.point.UserCode? then Bad(AssertFailed)
    else
      var self, pc := th.exec.point.self, th.exec.point.pc;
      if self !in s.heap then Bad(Dangling)
      else if s.heap[self].cb.None? || pc > |s.heap[self].cb.value| then Bad(NullPointer)
      else
        var script := s.heap[self].cb.value;
        if pc == |script| then StepFinish(s, t, self, TERM)
        else
          var s1 := Log(s, self, script[pc]);
          match script[pc]
          case Work(_) => Ok(SetThread(s1, t, th.(exec := Ctx(th.exec.stack, UserCode(self, pc + 1)))))
          case YieldHold => StepYield(s1, t, self, pc, HOLD)
          case YieldReady => StepYield(s1, t, self, pc, READY)
          case Throw => StepFinish(s1, t, self, EXCEP)
  }

  function StepCopy(s: Sys, f: Ref): Outcome {
    if f !in s.heap then Bad(Dangling)
    else Ok(SetFiber(s, f, s.heap[f].(refs := s.heap[f].refs + 1, handles := s.heap[f].handles + 1)))
  }

  function StepDrop(s: Sys, t: Tid, f: Ref): Outcome
    requires t in s.threads
  {
    if f !in s.heap || s.heap[f].handles == 0 then Bad(Dangling)
    else Release(SetFiber(s, f, s.heap[f].(handles := s.heap[f].handles - 1)), t, f)
  }

  function StepExit(s: Sys, t: Tid): Outcome
    requires t in s.threads
  {
    var th := s.threads[t];
    var s1 := SetThread(s, t, th.(last := None, exited := true));
    if th.last.None? then Ok(s1) else Release(s1, t, th.last.value)
  }

  function Step(s: Sys, c: Command): Outcome
    requires c.t in s.threads
  {
    match c
    case GetThis(t) => StepGetThis(s, t)
    case NewBegin(t) => StepNewBegin(s, t)
    case NewEnd(t, script) => StepNewEnd(s, t, script)
    case SwapIn(t, f) => StepSwapIn(s, t, f)
    case Act(t) => StepAct(s, t)
    case Reset(_, f, script) => StepReset(s, f, script)
    case Copy(_, f) => StepCopy(s, f)
    case Drop(t, f) => StepDrop(s, t, f)
    case Exit(t) => StepExit(s, t)
  }

  // ---------- The usage rule ----------

  predicate Held(s: Sys, f: Ref) { f in s.heap && s.heap[f].handles > 0 }

  /** What the assertions and the tests ask of the code that uses fibers: GetThis
      has run on a thread before it swaps; swapIn comes from the thread's own
      code, by the holder of a pointer, on a fiber of that thread that can run;
      reset is not called on a fiber that runs or is suspended; the pointer a
      swapIn call goes through outlives the call; a constructor is not
      interrupted by its own thread. */
  predicate Legal(s: Sys, c: Command) {
    && c.t in s.threads && !s.threads[c.t].exited
    && (s.threads[c.t].pending.Some? <==> c.NewEnd?)
    && match c {
      case GetThis(_) => true
      case NewBegin(_) => true
      case NewEnd(_, _) => true
      case SwapIn(t, f) =>
        && Held(s, f) && s.heap[f].stack && s.heap[f].owner == t
        && (s.heap[f].state == INIT || s.heap[f].state == HOLD || s.heap[f].state == READY)
        && s.threads[t].exec.stack == OnThread && s.threads[t].cur.Some?
      case Act(t) => s.threads[t].exec.stack.OnFiber?
      case Reset(_, f, _) => Held(s, f) && s.heap[f].stack && Restartable(s.heap[f].state)
      case Copy(_, f) => Held(s, f)
      case Drop(_, f) => Held(s, f) && (InCall(s, f) ==> s.heap[f].handles > 1)
      case Exit(t) => s.threads[t].exec.stack == OnThread
    }
  }

  /** The thread of `f` is in a swapIn call on it. */
  predicate InCall(s: Sys, f: Ref)
    requires f in s.heap
  {
    var t := s.heap[f].owner;
    t in s.threads && s.threads[t].call.Some? && s.threads[t].call.value.f == f
  }

  /** Runs of any commands of any threads, in any order. */
  function Run(s: Sys, cs: seq<Command>): Outcome
    decreases |cs|
  {
    if cs == [] then Ok(s)
    else if cs[0].t !in s.threads then Bad(AssertFailed)
    else
      var o := Step(s, cs[0]);
      if o.Ok? then Run(o.s, cs[1..]) else o
  }

  predicate LegalRun(s: Sys, cs: seq<Command>)
    decreases |cs|
  {
    cs != [] ==>
      && Legal(s, cs[0])
      && (Step(s, cs[0]).Ok? ==> LegalRun(Step(s, cs[0]).s, cs[1..]))
  }

  predicate Initial(s: Sys) {
    && s.heap == map[] && s.fiberId == 0 && s.fiberCount == 0
    && forall t :: t in s.threads ==> s.threads[t] == IDLE
  }
}

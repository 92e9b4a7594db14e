/** The scoped lock guards.

    ScopedMutex, ReadScopedMutex and WriteScopedMutex differ only in which operation they use to
    acquire; `kind` is that operation. The guard keeps a flag so that lock() and unlock() may be
    called in any order and any number of times before the scope ends. The mutex records the
    operations it is asked for, because a second acquisition of a mutex already held, or a release
    of one not held, is what the guard has to rule out. */
module ScopedGuards {
  datatype Kind = Plain | Read | Write
  datatype Op = Acquire(kind: Kind) | Release

  // What the mutex is asked for by a guard that is currently holding it or not, when the owner
  // calls lock() (true) and unlock() (false) in the given order and then leaves the scope.
  function Requests(kind: Kind, holding: bool, calls: seq<bool>): seq<Op>
    decreases |calls|
  {
    if calls == [] then (if holding then [Release] else [])
    else (if calls[0] == holding then [] else [if calls[0] then Acquire(kind) else Release])
         + Requests(kind, calls[0], calls[1..])
  }

  // Acquisitions of one kind and releases strictly alternate, and the mutex ends up free.
  predicate Balanced(kind: Kind, holding: bool, ops: seq<Op>)
    decreases |ops|
  {
    if ops == [] then !holding
    else ops[0] == (if holding then Release else Acquire(kind)) && Balanced(kind, !holding, ops[1..])
  }

  /** Whatever the owner calls, the mutex is never acquired twice in a row, never released while
      free, and is free when the scope ends. */
  lemma {:induction false} AlwaysBalanced(kind: Kind, holding: bool, calls: seq<bool>)
    ensures Balanced(kind, holding, Requests(kind, holding, calls))
    decreases |calls|
  {
    if calls == [] {
    } else {
      AlwaysBalanced(kind, calls[0], calls[1..]);
      var rest := Requests(kind, calls[0], calls[1..]);
      if calls[0] == holding {
        assert Requests(kind, holding, calls) == rest;
      } else {
        assert Requests(kind, holding, calls)[1..] == rest;
      }
    }
  }

  class Mutex {
    var requests: seq<Op>

    constructor ()
      ensures requests == []
    {
      requests := [];
    }

    method Request(op: Op)
      modifies this
      ensures requests == old(requests) + [op]
    {
      requests := requests + [op];
    }
  }

  class ScopedLock {
    const kind: Kind
    const mutex: Mutex
    var locked: bool

    constructor (kind: Kind, mutex: Mutex)
      modifies mutex
      ensures this.kind == kind && this.mutex == mutex && locked
      ensures mutex.requests == old(mutex.requests) + [Acquire(kind)]
    {
      this.kind := kind;
      this.mutex := mutex;
      this.locked := true;
      new;
      mutex.Request(Acquire(kind));
    }

    method Lock()
      modifies this, mutex
      ensures locked
      ensures mutex.requests == old(mutex.requests) + (if old(locked) then [] else [Acquire(kind)])
    {
      if !locked {
        mutex.Request(Acquire(kind));
        locked := true;
      }
    }

    method Unlock()
      modifies this, mutex
      ensures !locked
      ensures mutex.requests == old(mutex.requests) + (if old(locked) then [Release] else [])
    {
      if locked {
        mutex.Request(Release);
        locked := false;
      }
    }
  }

  /** The whole life of a guard: construction, any calls of lock() and unlock(), destruction. */
  method Scope(kind: Kind, mutex: Mutex, calls: seq<bool>)
    modifies mutex
    ensures mutex.requests == old(mutex.requests) + [Acquire(kind)] + Requests(kind, true, calls)
    ensures Balanced(kind, false, mutex.requests[|old(mutex.requests)|..])
  {
    hide Requests, Balanced;
    var guard := new ScopedLock(kind, mutex);
    ghost var before := mutex.requests;
    var k := 0;
    while k < |calls|
      invariant 0 <= k <= |calls| && guard.mutex == mutex && guard.kind == kind && fresh(guard)
      invariant mutex.requests + Requests(kind, guard.locked, calls[k..]) == before + Requests(kind, true, calls)
    {
      NextCall(kind, guard.locked, calls, k);
      if calls[k] {
        guard.Lock();
      } else {
        guard.Unlock();
      }
      k := k + 1;
    }
    LastCall(kind, guard.locked, calls);
    guard.Unlock();
    FromStart(kind, calls);
    assert mutex.requests[|old(mutex.requests)|..] == [Acquire(kind)] + Requests(kind, true, calls);
  }

  lemma NextCall(kind: Kind, holding: bool, calls: seq<bool>, k: nat)
    requires k < |calls|
    ensures Requests(kind, holding, calls[k..])
         == (if calls[k] == holding then [] else [if calls[k] then Acquire(kind) else Release])
            + Requests(kind, calls[k], calls[k + 1..])
  {
    assert calls[k..][1..] == calls[k + 1..];
  }

  lemma LastCall(kind: Kind, holding: bool, calls: seq<bool>)
    ensures Requests(kind, holding, calls[|calls|..]) == if holding then [Release] else []
  {
  }

  lemma FromStart(kind: Kind, calls: seq<bool>)
    ensures Balanced(kind, false, [Acquire(kind)] + Requests(kind, true, calls))
  {
    AlwaysBalanced(kind, true, calls);
    assert ([Acquire(kind)] + Requests(kind, true, calls))[1..] == Requests(kind, true, calls);
  }
}

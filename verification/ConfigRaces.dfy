/** Concurrent setValue: each call tells the listeners under the read lock, and
    stores under a write lock that it takes afterwards. Any number of threads,
    interleaved call by call. */
module ConfigRaces {
  import opened ConfigVars

  /** Where a thread is in setValue. `audience` are the listeners registered when
      its read phase began; `heard` says which calls of the history are its own,
      one for each listener told so far. */
  datatype Phase<T> =
    | Idle
    | Reading(v: T, audience: seq<nat>, heard: seq<nat>)
    | Between(v: T, audience: seq<nat>, heard: seq<nat>)

  /** The variable, the threads, the history of listener calls, and the call
      whose value is stored (none while it is the default). */
  datatype Race<T> = Race(
    init: T, val: T, cbs: seq<nat>, threads: map<nat, Phase<T>>,
    notes: seq<Note<T>>, writer: Phase<T>)

  datatype Action<T> =
    | Begin(t: nat, v: T)    // take the read lock and compare
    | Tell(t: nat)           // call the next listener
    | EndRead(t: nat)        // give the read lock back
    | Write(t: nat)          // take the write lock, store, give it back
    | Add(key: nat)          // addListener, under the write lock
    | Del(key: nat)          // delListener, under the write lock

  predicate NoReader<T>(s: Race<T>) {
    forall t :: t in s.threads ==> !s.threads[t].Reading?
  }

  predicate AllIdle<T>(s: Race<T>) {
    forall t :: t in s.threads ==> s.threads[t].Idle?
  }

  /** What the locks and the code's own order allow. */
  predicate Enabled<T>(s: Race<T>, a: Action<T>) {
    match a
    case Begin(t, _) => t in s.threads && s.threads[t].Idle?
    case Tell(t) => t in s.threads && s.threads[t].Reading? && |s.threads[t].heard| < |s.threads[t].audience|
    case EndRead(t) => t in s.threads && s.threads[t].Reading? && |s.threads[t].heard| == |s.threads[t].audience|
    case Write(t) => t in s.threads && s.threads[t].Between? && NoReader(s)
    case Add(key) => key !in s.cbs && NoReader(s)
    case Del(key) => NoReader(s)
  }

  function Without(cbs: seq<nat>, key: nat): seq<nat> {
    if cbs == [] then []
    else Without(cbs[..|cbs| - 1], key) + if cbs[|cbs| - 1] == key then [] else [cbs[|cbs| - 1]]
  }

  function Next<T(==)>(s: Race<T>, a: Action<T>): Race<T>
    requires Enabled(s, a)
  {
    match a
    case Begin(t, v) =>
      if s.val == v then s else s.(threads := s.threads[t := Reading(v, s.cbs, [])])
    case Tell(t) =>
      var p := s.threads[t];
      s.(notes := s.notes + [Note(p.audience[|p.heard|], s.val, p.v)],
         threads := s.threads[t := Reading(p.v, p.audience, p.heard + [|s.notes|])])
    case EndRead(t) =>
      var p := s.threads[t];
      s.(threads := s.threads[t := Between(p.v, p.audience, p.heard)])
    case Write(t) =>
      s.(val := s.threads[t].v, writer := s.threads[t], threads := s.threads[t := Idle])
    case Add(key) => s.(cbs := s.cbs + [key])
    case Del(key) => s.(cbs := Without(s.cbs, key))
  }

  predicate EnabledRun<T(==)>(s: Race<T>, acts: seq<Action<T>>)
    decreases |acts|
  {
    acts != [] ==> Enabled(s, acts[0]) && EnabledRun(Next(s, acts[0]), acts[1..])
  }

  function RunAll<T(==)>(s: Race<T>, acts: seq<Action<T>>): Race<T>
    requires EnabledRun(s, acts)
    decreases |acts|
  {
    if acts == [] then s else RunAll(Next(s, acts[0]), acts[1..])
  }

  // ---------- Nothing is stored unannounced ----------

  /** The first `n` listeners of the call's audience have been told its value. */
  predicate Announced<T(==)>(s: Race<T>, p: Phase<T>, n: nat) {
    p.Idle? ||
    (|p.heard| == n <= |p.audience| &&
     forall i :: 0 <= i < n ==>
       p.heard[i] < |s.notes| && s.notes[p.heard[i]].key == p.audience[i] && s.notes[p.heard[i]].newVal == p.v)
  }

  predicate RaceOk<T(==)>(s: Race<T>) {
    && (forall t :: t in s.threads ==>
          match s.threads[t] {
            case Idle => true
            case Reading(v, audience, heard) => audience == s.cbs && |heard| <= |audience| &&
                Announced(s, s.threads[t], |heard|)
            case Between(v, audience, heard) => Announced(s, s.threads[t], |audience|)
          })
    && match s.writer {
      case Idle => s.val == s.init
      case Reading(_, _, _) => false
      case Between(v, audience, heard) => s.val == v && Announced(s, s.writer, |audience|)
    }
  }

  lemma StillAnnounced<T>(s: Race<T>, s': Race<T>, p: Phase<T>, n: nat)
    requires s.notes <= s'.notes && Announced(s, p, n)
    ensures Announced(s', p, n)
  {
  }

  lemma RaceOkTell<T>(s: Race<T>, t: nat)
    requires RaceOk(s) && Enabled(s, Tell(t))
    ensures RaceOk(Next(s, Tell(t)))
  {
    var s', p := Next(s, Tell(t)), s.threads[t];
    forall q: Phase<T>, n: nat | Announced(s, q, n) ensures Announced(s', q, n) {
      StillAnnounced(s, s', q, n);
    }
    assert Announced(s', s'.threads[t], |p.heard| + 1);
    hide Announced;
  }

  lemma RaceOkNext<T>(s: Race<T>, a: Action<T>)
    requires RaceOk(s) && Enabled(s, a)
    ensures RaceOk(Next(s, a))
  {
    var s' := Next(s, a);
    match a
    case Begin(_, _) =>
    case Tell(t) => RaceOkTell(s, t);
    case EndRead(t) =>
    case Write(t) =>
    case Add(_) =>
    case Del(_) =>
  }

  /** A new variable, before any call. */
  predicate Fresh<T(==)>(s: Race<T>) {
    AllIdle(s) && s.writer.Idle? && s.val == s.init && s.notes == [] && s.cbs == []
  }

  lemma {:induction false} RaceOkRun<T>(s: Race<T>, acts: seq<Action<T>>)
    requires RaceOk(s) && EnabledRun(s, acts)
    ensures RaceOk(RunAll(s, acts))
    decreases |acts|
  {
    hide RaceOk, Enabled, Next;
    if acts == [] {
    } else {
      RaceOkNext(s, acts[0]);
      RaceOkRun(Next(s, acts[0]), acts[1..]);
    }
  }

  /** Under any interleaving of calls on a new variable, the stored value is the
      default or the argument of a call that has told it to every listener
      registered in its read phase. */
  lemma StoredWasAnnounced<T>(s: Race<T>, acts: seq<Action<T>>)
    requires Fresh(s) && EnabledRun(s, acts)
    ensures var s' := RunAll(s, acts);
            s'.val == s'.init ||
            (s'.writer.Between? && s'.writer.v == s'.val && |s'.writer.heard| == |s'.writer.audience| &&
             forall i :: 0 <= i < |s'.writer.audience| ==>
               && s'.writer.heard[i] < |s'.notes|
               && s'.notes[s'.writer.heard[i]].key == s'.writer.audience[i]
               && s'.notes[s'.writer.heard[i]].newVal == s'.val)
  {
    RaceOkRun(s, acts);
  }

  // ---------- When what a listener hears is a chain ----------

  /** Calls that do not overlap: one that has something to change begins when no
      other is under way. */
  predicate SerialRun<T(==)>(s: Race<T>, acts: seq<Action<T>>)
    requires EnabledRun(s, acts)
    decreases |acts|
  {
    acts != [] ==>
      && (acts[0].Begin? && acts[0].v != s.val ==> AllIdle(s))
      && SerialRun(Next(s, acts[0]), acts[1..])
  }

  predicate OneBusy<T>(s: Race<T>) {
    forall t, u :: t in s.threads && u in s.threads && !s.threads[t].Idle? && !s.threads[u].Idle? ==> t == u
  }

  predicate Distinct(cbs: seq<nat>) {
    forall i, j :: 0 <= i < j < |cbs| ==> cbs[i] != cbs[j]
  }

  /** What listener `k` has been told so far leads from `start` to the value of
      the call under way, if it was told of it, and else to the stored value. */
  predicate Linked<T(==)>(s: Race<T>, k: nat, start: T) {
    && OneBusy(s) && k in s.cbs && Distinct(s.cbs)
    && (AllIdle(s) ==> Chain(start, For(k, s.notes), s.val))
    && forall t :: t in s.threads ==>
         match s.threads[t] {
           case Idle => true
           case Reading(v, audience, heard) =>
             && audience == s.cbs && |heard| <= |audience| && v != s.val
             && (k in audience[..|heard|] ==> For(k, s.notes) != [])
             && Chain(start, For(k, s.notes), if k in audience[..|heard|] then v else s.val)
           case Between(v, audience, _) => v != s.val && For(k, s.notes) != [] && Chain(start, For(k, s.notes), v)
         }
  }

  lemma {:induction false} WithoutIs(cbs: seq<nat>, key: nat)
    requires Distinct(cbs)
    ensures Distinct(Without(cbs, key))
    ensures forall k :: k in Without(cbs, key) <==> k in cbs && k != key
  {
    if cbs == [] {
    } else {
      var init := cbs[..|cbs| - 1];
      assert cbs == init + [cbs[|cbs| - 1]];
      WithoutIs(init, key);
      assert cbs[|cbs| - 1] !in init;
    }
  }

  lemma LinkedNext<T>(s: Race<T>, a: Action<T>, k: nat, start: T)
    requires Linked(s, k, start) && Enabled(s, a) && a != Del(k)
    requires a.Begin? && a.v != s.val ==> AllIdle(s)
    ensures Linked(Next(s, a), k, start)
  {
    var s' := Next(s, a);
    match a
    case Begin(_, _) =>
    case Tell(t) => LinkedTell(s, t, k, start);
    case EndRead(t) =>
      var p := s.threads[t];
      assert p.audience[..|p.heard|] == p.audience;
      assert s'.threads[t].Between? && !AllIdle(s');
    case Write(t) =>
    case Add(_) =>
    case Del(key) => WithoutIs(s.cbs, key);
  }

  /** One more note, to `k` or to another listener. */
  lemma ToldOne<T>(s: Race<T>, t: nat, k: nat)
    requires Enabled(s, Tell(t))
    ensures var p, s' := s.threads[t], Next(s, Tell(t));
            For(k, s'.notes) == For(k, s.notes) + if p.audience[|p.heard|] == k then [Note(k, s.val, p.v)] else []
  {
    var s' := Next(s, Tell(t));
    assert s'.notes[..|s'.notes| - 1] == s.notes;
  }

  lemma LinkedTell<T>(s: Race<T>, t: nat, k: nat, start: T)
    requires Linked(s, k, start) && Enabled(s, Tell(t))
    ensures Linked(Next(s, Tell(t)), k, start)
  {
    var s', p := Next(s, Tell(t)), s.threads[t];
    var n := |p.heard|;
    ToldOne(s, t, k);
    assert p.audience[..n + 1] == p.audience[..n] + [p.audience[n]];
    assert s'.threads[t].Reading? && !AllIdle(s');
    var heard := For(k, s.notes);
    if p.audience[n] == k {
      assert k !in p.audience[..n];
      assert (heard + [Note(k, s.val, p.v)])[..|heard|] == heard;
    } else {
      assert heard + [] == heard;
    }
  }

  // ---------- Overlap breaks it for good ----------

  predicate Broken<T(==)>(notes: seq<Note<T>>) {
    exists i :: 0 <= i < |notes| - 1 && notes[i + 1].oldVal != notes[i].newVal
  }

  lemma {:induction false} ChainUnbroken<T>(start: T, notes: seq<Note<T>>, end: T)
    requires Chain(start, notes, end)
    ensures !Broken(notes)
    ensures notes != [] ==> notes[|notes| - 1].newVal == end
  {
    if notes == [] {
    } else {
      var init := notes[..|notes| - 1];
      ChainUnbroken(start, init, notes[|notes| - 1].oldVal);
      assert forall i :: 0 <= i < |init| ==> init[i] == notes[i];
    }
  }

  /** Thread `t` is in its read phase and has not told `k` yet. */
  ghost predicate YetToTell<T>(s: Race<T>, t: nat, k: nat) {
    && t in s.threads && s.threads[t].Reading?
    && exists i :: |s.threads[t].heard| <= i < |s.threads[t].audience| && s.threads[t].audience[i] == k
  }

  /** A next note to `k` that cannot continue the last one. */
  ghost predicate Stale<T>(s: Race<T>, k: nat) {
    && For(k, s.notes) != [] && For(k, s.notes)[|For(k, s.notes)| - 1].newVal != s.val
    && exists t :: YetToTell(s, t, k)
  }

  ghost predicate TwoToTell<T>(s: Race<T>, k: nat) {
    exists t, u :: t != u && YetToTell(s, t, k) && YetToTell(s, u, k)
  }

  /** The chain to `k` is broken, or the calls under way will break it. */
  ghost predicate Doomed<T>(s: Race<T>, k: nat) {
    && (forall t :: t in s.threads && s.threads[t].Reading? ==> s.threads[t].v != s.val)
    && (Broken(For(k, s.notes)) || Stale(s, k) || TwoToTell(s, k))
  }

  /** A changing call that begins while another one is under way. */
  lemma OverlapDooms<T>(s: Race<T>, a: Action<T>, k: nat, start: T)
    requires Linked(s, k, start) && Enabled(s, a) && a.Begin? && a.v != s.val && !AllIdle(s)
    ensures Doomed(Next(s, a), k)
  {
    var s' := Next(s, a);
    var u := Busy(s);
    var i :| 0 <= i < |s.cbs| && s.cbs[i] == k;
    assert s'.threads[a.t].audience[i] == k && YetToTell(s', a.t, k);
    var p := s.threads[u];
    if p.Reading? && k !in p.audience[..|p.heard|] {
      assert s'.threads[u] == p && p.audience[i] == k && i >= |p.heard|;
      assert YetToTell(s', u, k);
    } else {
      ChainUnbroken(start, For(k, s.notes), p.v);
      assert Stale(s', k);
    }
  }

  lemma Busy<T>(s: Race<T>)
    returns (u: nat)
    requires !AllIdle(s)
    ensures u in s.threads && !s.threads[u].Idle?
  {
    u :| u in s.threads && !s.threads[u].Idle?;
  }

  lemma DoomedNext<T>(s: Race<T>, a: Action<T>, k: nat)
    requires Doomed(s, k) && Enabled(s, a)
    ensures Doomed(Next(s, a), k)
  {
    var s' := Next(s, a);
    match a
    case Begin(t, v) =>
      forall u | YetToTell(s, u, k) ensures YetToTell(s', u, k) {
        assert s'.threads[u] == s.threads[u];
      }
    case Tell(t) => DoomedTell(s, t, k);
    case EndRead(t) =>
      forall u | YetToTell(s, u, k) ensures YetToTell(s', u, k) {
        assert u != t && s'.threads[u] == s.threads[u];
      }
    case Write(_) =>
    case Add(_) =>
    case Del(_) =>
  }

  lemma DoomedTell<T>(s: Race<T>, t: nat, k: nat)
    requires Doomed(s, k) && Enabled(s, Tell(t))
    ensures Doomed(Next(s, Tell(t)), k)
  {
    hide For, Broken;
    var s', p := Next(s, Tell(t)), s.threads[t];
    ToldOne(s, t, k);
    var heard := For(k, s.notes);
    forall u | YetToTell(s, u, k) && (u != t || p.audience[|p.heard|] != k) ensures YetToTell(s', u, k) {
      if u == t {
        var i :| |p.heard| <= i < |p.audience| && p.audience[i] == k;
        assert s'.threads[t].audience[i] == k;
      } else {
        assert s'.threads[u] == s.threads[u];
      }
    }
    if p.audience[|p.heard|] == k {
      BrokenGrows(heard, Note(k, s.val, p.v));
      assert s'.val == s.val && For(k, s'.notes)[|heard|] == Note(k, s.val, p.v);
    } else {
      assert For(k, s'.notes) == heard;
    }
  }

  lemma BrokenGrows<T>(notes: seq<Note<T>>, n: Note<T>)
    ensures Broken(notes) ==> Broken(notes + [n])
    ensures notes != [] && notes[|notes| - 1].newVal != n.oldVal ==> Broken(notes + [n])
  {
    var more := notes + [n];
    if Broken(notes) {
      var i :| 0 <= i < |notes| - 1 && notes[i + 1].oldVal != notes[i].newVal;
      assert more[i + 1].oldVal != more[i].newVal;
    }
    if notes != [] {
      var i := |notes| - 1;
      assert more[i] == notes[i] && more[i + 1] == n;
    }
  }

  lemma {:induction false} DoomedRun<T>(s: Race<T>, acts: seq<Action<T>>, k: nat)
    requires Doomed(s, k) && EnabledRun(s, acts)
    ensures Doomed(RunAll(s, acts), k)
    decreases |acts|
  {
    hide Doomed, Enabled, Next;
    if acts == [] {
    } else {
      DoomedNext(s, acts[0], k);
      DoomedRun(Next(s, acts[0]), acts[1..], k);
    }
  }

  lemma DoomedEnd<T>(s: Race<T>, k: nat, start: T)
    requires Doomed(s, k) && AllIdle(s)
    ensures !Chain(start, For(k, s.notes), s.val)
  {
    if Chain(start, For(k, s.notes), s.val) {
      ChainUnbroken(start, For(k, s.notes), s.val);
    }
  }

  lemma {:induction false} ChainIff<T>(s: Race<T>, acts: seq<Action<T>>, k: nat, start: T)
    requires Linked(s, k, start) && EnabledRun(s, acts) && Del(k) !in acts && AllIdle(RunAll(s, acts))
    ensures Chain(start, For(k, RunAll(s, acts).notes), RunAll(s, acts).val) <==> SerialRun(s, acts)
    decreases |acts|
  {
    hide Linked, Enabled, Next, For, Chain, AllIdle, Doomed;
    if acts == [] {
      LinkedEnd(s, k, start);
    } else if acts[0].Begin? && acts[0].v != s.val && !AllIdle(s) {
      OverlapDooms(s, acts[0], k, start);
      DoomedRun(Next(s, acts[0]), acts[1..], k);
      DoomedEnd(RunAll(s, acts), k, start);
    } else {
      LinkedNext(s, acts[0], k, start);
      ChainIff(Next(s, acts[0]), acts[1..], k, start);
    }
  }

  lemma LinkedEnd<T>(s: Race<T>, k: nat, start: T)
    requires Linked(s, k, start)
    ensures AllIdle(s) ==> Chain(start, For(k, s.notes), s.val)
  {
  }

  // ---------- From a new variable on ----------

  /** A key that no listener has been registered under. */
  predicate Unused<T(==)>(s: Race<T>, k: nat) {
    RaceOk(s) && Distinct(s.cbs) && k !in s.cbs && For(k, s.notes) == []
  }

  lemma {:induction false} StillUnused<T>(s: Race<T>, acts: seq<Action<T>>, k: nat)
    requires Unused(s, k) && EnabledRun(s, acts) && Add(k) !in acts
    ensures Unused(RunAll(s, acts), k)
    decreases |acts|
  {
    if acts == [] {
    } else {
      hide Enabled, Next, For, RaceOk, Distinct;
      UnusedNext(s, acts[0], k);
      StillUnused(Next(s, acts[0]), acts[1..], k);
    }
  }

  lemma UnusedNext<T>(s: Race<T>, a: Action<T>, k: nat)
    requires Unused(s, k) && Enabled(s, a) && a != Add(k)
    ensures Unused(Next(s, a), k)
  {
    hide For;
    RaceOkNext(s, a);
    match a
    case Begin(_, _) =>
    case Tell(t) => ToldOne(s, t, k);
    case EndRead(_) =>
    case Write(_) =>
    case Add(_) =>
    case Del(key) => WithoutIs(s.cbs, key);
  }

  /** A listener registered while no call is under way: a chain of its own. */
  lemma AddLinks<T>(s: Race<T>, k: nat)
    requires AllIdle(s) && Unused(s, k)
    ensures Enabled(s, Add(k)) && Linked(Next(s, Add(k)), k, s.val)
  {
  }

  /** A run from a new variable: anything, then the registration of a listener
      under a key of its own, then anything but its removal until no call is
      under way. */
  ghost predicate RegisteredRun<T>(s: Race<T>, before: seq<Action<T>>, k: nat, after: seq<Action<T>>) {
    && Fresh(s) && EnabledRun(s, before) && Add(k) !in before
    && Enabled(RunAll(s, before), Add(k)) && EnabledRun(Next(RunAll(s, before), Add(k)), after) && Del(k) !in after
    && AllIdle(RunAll(Next(RunAll(s, before), Add(k)), after))
  }

  /** What a listener registered while no call was under way hears is an unbroken
      chain from the value it was registered at to the value stored in the end if
      and only if, from then on, no call that had something to change began during
      another one. */
  lemma ChainIffSerial<T>(s: Race<T>, before: seq<Action<T>>, k: nat, after: seq<Action<T>>)
    requires RegisteredRun(s, before, k, after) && AllIdle(RunAll(s, before))
    ensures var start := RunAll(s, before);
            var end := RunAll(Next(start, Add(k)), after);
            Chain(start.val, For(k, end.notes), end.val) <==> SerialRun(Next(start, Add(k)), after)
  {
    hide Linked, Next, Chain, SerialRun;
    StillUnused(s, before, k);
    AddLinks(RunAll(s, before), k);
    ChainIff(Next(RunAll(s, before), Add(k)), after, k, RunAll(s, before).val);
  }

  // ---------- Registration during a call ----------

  /** At most one call is under way, and it has something to change. */
  predicate OneChange<T(==)>(s: Race<T>) {
    OneBusy(s) && forall t :: t in s.threads && !s.threads[t].Idle? ==> s.threads[t].v != s.val
  }

  lemma OneChangeNext<T>(s: Race<T>, a: Action<T>)
    requires OneChange(s) && Enabled(s, a) && (a.Begin? && a.v != s.val ==> AllIdle(s))
    ensures OneChange(Next(s, a))
  {
  }

  lemma {:induction false} OneChangeRun<T>(s: Race<T>, acts: seq<Action<T>>)
    requires OneChange(s) && EnabledRun(s, acts) && SerialRun(s, acts)
    ensures OneChange(RunAll(s, acts))
    decreases |acts|
  {
    hide OneChange, Enabled, Next, AllIdle;
    if acts == [] {
    } else {
      OneChangeNext(s, acts[0]);
      OneChangeRun(Next(s, acts[0]), acts[1..]);
    }
  }

  /** Listener `k` came after the read phase of the one call under way, which is
      going to store `v`. */
  predicate Late<T(==)>(s: Race<T>, k: nat, v: T) {
    && OneChange(s) && k in s.cbs && Distinct(s.cbs) && For(k, s.notes) == []
    && exists t :: t in s.threads && s.threads[t].Between? && s.threads[t].v == v
  }

  lemma LateNext<T>(s: Race<T>, a: Action<T>, k: nat, v: T)
    requires Late(s, k, v) && Enabled(s, a) && a != Del(k) && (a.Begin? && a.v != s.val ==> AllIdle(s))
    ensures Late(Next(s, a), k, v) || Linked(Next(s, a), k, v)
  {
    hide For;
    var t :| t in s.threads && s.threads[t].Between? && s.threads[t].v == v;
    var s' := Next(s, a);
    match a
    case Begin(_, _) =>
    case Tell(_) =>
    case EndRead(_) =>
    case Write(_) => assert Chain(v, [], v);
    case Add(_) => assert s'.threads[t].Between?;
    case Del(key) =>
      WithoutIs(s.cbs, key);
      assert s'.threads[t].Between?;
  }

  /** It goes on from the stored value as if registered there. */
  lemma {:induction false} LateRun<T>(s: Race<T>, acts: seq<Action<T>>, k: nat, v: T)
    requires Late(s, k, v) && EnabledRun(s, acts) && SerialRun(s, acts) && Del(k) !in acts && AllIdle(RunAll(s, acts))
    ensures Chain(v, For(k, RunAll(s, acts).notes), RunAll(s, acts).val)
    decreases |acts|
  {
    if acts == [] {
    } else {
      hide Late, Linked, Enabled, Next, For, Chain, AllIdle;
      LateNext(s, acts[0], k, v);
      if Late(Next(s, acts[0]), k, v) {
        LateRun(Next(s, acts[0]), acts[1..], k, v);
      } else {
        ChainIff(Next(s, acts[0]), acts[1..], k, v);
      }
    }
  }

  /** A chain has one start. */
  lemma {:induction false} OneStart<T>(a: T, b: T, notes: seq<Note<T>>, end: T)
    requires Chain(a, notes, end) && Chain(b, notes, end)
    ensures a == b
  {
    if notes == [] {
    } else {
      OneStart(a, b, notes[..|notes| - 1], notes[|notes| - 1].oldVal);
    }
  }

  lemma AddLate<T>(s: Race<T>, k: nat)
    returns (v: T)
    requires OneChange(s) && Unused(s, k) && !AllIdle(s) && Enabled(s, Add(k))
    ensures v != s.val && Late(Next(s, Add(k)), k, v)
  {
    var t := Busy(s);
    v := s.threads[t].v;
    assert Next(s, Add(k)).threads[t].Between?;
  }

  /** Even where no two calls overlap, the chain is unbroken only for a listener
      that was registered while none was under way: one registered between the
      phases of a call misses its change for good. */
  lemma ChainIffIdleAtRegistration<T>(s: Race<T>, before: seq<Action<T>>, k: nat, after: seq<Action<T>>)
    requires RegisteredRun(s, before, k, after)
    requires SerialRun(s, before) && SerialRun(Next(RunAll(s, before), Add(k)), after)
    ensures var start := RunAll(s, before);
            var end := RunAll(Next(start, Add(k)), after);
            Chain(start.val, For(k, end.notes), end.val) <==> AllIdle(start)
  {
    hide Linked, Next, Chain, SerialRun, Late, AllIdle, OneChange, Unused, For;
    var start := RunAll(s, before);
    if AllIdle(start) {
      ChainIffSerial(s, before, k, after);
    } else {
      StillUnused(s, before, k) by { FreshIs(s, k); }
      OneChangeRun(s, before) by { FreshIs(s, k); }
      var v := AddLate(start, k);
      LateRun(Next(start, Add(k)), after, k, v);
      var end := RunAll(Next(start, Add(k)), after);
      if Chain(start.val, For(k, end.notes), end.val) {
        OneStart(start.val, v, For(k, end.notes), end.val);
      }
    }
  }

  lemma FreshIs<T>(s: Race<T>, k: nat)
    requires Fresh(s)
    ensures Unused(s, k) && OneChange(s)
  {
  }

  /** A listener added between a call's two phases never hears of the change
      that is stored next. */
  lemma LateListenerMissesChange<T>(s: Race<T>, t: nat, k: nat)
    requires NoReader(s) && t in s.threads && s.threads[t].Between? && s.threads[t].v != s.val
    requires k !in s.cbs && For(k, s.notes) == []
    ensures Enabled(s, Add(k)) && Enabled(Next(s, Add(k)), Write(t))
    ensures var s' := Next(Next(s, Add(k)), Write(t));
            s'.val != s.val && For(k, s'.notes) == [] && !Chain(s.val, For(k, s'.notes), s'.val)
  {
    assert NoReader(Next(s, Add(k)));
  }

  // ---------- Old news ----------

  /** The last note to `k`. */
  function Newest<T>(k: nat, notes: seq<Note<T>>): (i: nat)
    requires For(k, notes) != []
    ensures i < |notes| && notes[i].key == k && For(k, notes)[|For(k, notes)| - 1] == notes[i]
  {
    if notes[|notes| - 1].key == k then |notes| - 1 else Newest(k, notes[..|notes| - 1])
  }

  /** Every call that has something to change brings a value not in use before. */
  ghost predicate NewValues<T(!new)>(s: Race<T>, acts: seq<Action<T>>, used: iset<T>)
    requires EnabledRun(s, acts)
    decreases |acts|
  {
    acts != [] ==>
      if acts[0].Begin? && acts[0].v != s.val then
        acts[0].v !in used && NewValues(Next(s, acts[0]), acts[1..], used + iset{acts[0].v})
      else NewValues(Next(s, acts[0]), acts[1..], used)
  }

  /** Values tell the calls apart: a note of the value of a call under way, or of
      the stored value, is that call's. */
  ghost predicate ToldApart<T(!new)>(s: Race<T>, used: iset<T>) {
    && RaceOk(s) && s.val in used
    && (forall i :: 0 <= i < |s.notes| ==> s.notes[i].newVal in used)
    && (forall t :: t in s.threads && !s.threads[t].Idle? ==> s.threads[t].v in used && s.threads[t].v != s.val)
    && (forall t, u :: t in s.threads && u in s.threads && t != u && !s.threads[t].Idle? && !s.threads[u].Idle? ==>
          s.threads[t].v != s.threads[u].v)
    && (forall t, i :: t in s.threads && !s.threads[t].Idle? && 0 <= i < |s.notes| ==>
          s.notes[i].newVal == s.threads[t].v ==> i in s.threads[t].heard)
    && (forall i :: 0 <= i < |s.notes| && s.notes[i].newVal == s.val ==> s.writer.Between? && i in s.writer.heard)
  }

  lemma ToldApartNext<T(!new)>(s: Race<T>, a: Action<T>, used: iset<T>)
    requires ToldApart(s, used) && Enabled(s, a) && (a.Begin? && a.v != s.val ==> a.v !in used)
    ensures ToldApart(Next(s, a), if a.Begin? && a.v != s.val then used + iset{a.v} else used)
  {
    hide RaceOk;
    RaceOkNext(s, a);
    var s' := Next(s, a);
    match a
    case Begin(_, _) =>
    case Tell(t) => ToldApartTell(s, t, used);
    case EndRead(_) =>
    case Write(_) =>
    case Add(_) =>
    case Del(_) =>
  }

  lemma ToldApartTell<T(!new)>(s: Race<T>, t: nat, used: iset<T>)
    requires ToldApart(s, used) && Enabled(s, Tell(t))
    ensures ToldApart(Next(s, Tell(t)), used)
  {
    hide RaceOk;
    RaceOkNext(s, Tell(t));
    var s', p := Next(s, Tell(t)), s.threads[t];
    assert s'.threads[t].heard == p.heard + [|s.notes|];
    forall i | 0 <= i < |s'.notes| ensures s'.notes[i].newVal == if i < |s.notes| then s.notes[i].newVal else p.v {
    }
  }

  lemma {:induction false} ToldApartRun<T(!new)>(s: Race<T>, acts: seq<Action<T>>, used: iset<T>)
    returns (used': iset<T>)
    requires ToldApart(s, used) && EnabledRun(s, acts) && NewValues(s, acts, used)
    ensures ToldApart(RunAll(s, acts), used')
    decreases |acts|
  {
    if acts == [] {
      used' := used;
    } else {
      hide ToldApart, Enabled, Next;
      ToldApartNext(s, acts[0], used);
      used' := ToldApartRun(Next(s, acts[0]), acts[1..],
                            if acts[0].Begin? && acts[0].v != s.val then used + iset{acts[0].v} else used);
    }
  }

  /** Where every change brings a new value, what a listener was told last is what
      is stored if and only if the call that told it last has stored last: the
      order of the stores has to end as the order of the announcements does. */
  lemma LastNewsIff<T(!new)>(s: Race<T>, acts: seq<Action<T>>, k: nat)
    requires Fresh(s) && EnabledRun(s, acts) && NewValues(s, acts, iset{s.init})
    requires For(k, RunAll(s, acts).notes) != []
    ensures var end := RunAll(s, acts);
            var last := Newest(k, end.notes);
            end.notes[last].newVal == end.val <==> end.writer.Between? && last in end.writer.heard
  {
    hide For, NewValues;
    var used := ToldApartRun(s, acts, iset{s.init});
    WriterTold(RunAll(s, acts));
  }

  lemma WriterTold<T>(s: Race<T>)
    requires RaceOk(s)
    ensures s.writer.Between? ==> forall i :: i in s.writer.heard ==> i < |s.notes| && s.notes[i].newVal == s.val
  {
  }

  /** Whatever the values, it is where the call that told it last has stored last. */
  lemma LastNewsOfTheWriter<T>(s: Race<T>, acts: seq<Action<T>>, k: nat)
    requires Fresh(s) && EnabledRun(s, acts) && For(k, RunAll(s, acts).notes) != []
    requires RunAll(s, acts).writer.Between? && Newest(k, RunAll(s, acts).notes) in RunAll(s, acts).writer.heard
    ensures LastTold(RunAll(s, acts), k, RunAll(s, acts).val)
  {
    RaceOkRun(s, acts);
    WriterTold(RunAll(s, acts));
  }

  /** What callers can do about it: where no call that has something to change
      begins during another one, a listener was told last what is stored. */
  lemma SerialNews<T>(s: Race<T>, before: seq<Action<T>>, k: nat, after: seq<Action<T>>)
    requires RegisteredRun(s, before, k, after) && AllIdle(RunAll(s, before))
    requires SerialRun(Next(RunAll(s, before), Add(k)), after)
    ensures var end := RunAll(Next(RunAll(s, before), Add(k)), after);
            For(k, end.notes) != [] ==> LastTold(end, k, end.val)
  {
    ChainIffSerial(s, before, k, after);
    var end := RunAll(Next(RunAll(s, before), Add(k)), after);
    ChainUnbroken(RunAll(s, before).val, For(k, end.notes), end.val);
  }

  // ---------- A call by itself ----------

  /** The notes of a call that changes `oldVal` to `newVal`, to listeners with the
      given keys. */
  function NotesTo<T>(keys: seq<nat>, oldVal: T, newVal: T): seq<Note<T>> {
    seq(|keys|, i requires 0 <= i < |keys| => Note(keys[i], oldVal, newVal))
  }

  /** From `s` on, thread `t` has told all of its audience that it had not told. */
  predicate RestTold<T(==)>(s: Race<T>, s': Race<T>, t: nat) {
    && t in s.threads && s.threads[t].Reading? && |s.threads[t].heard| <= |s.threads[t].audience|
    && t in s'.threads && s'.threads[t].Reading?
    && var p, p' := s.threads[t], s'.threads[t];
       && p'.v == p.v && p'.audience == p.audience && |p'.heard| == |p.audience|
       && s'.notes == s.notes + NotesTo(p.audience[|p.heard|..], s.val, p.v)
       && s' == s.(notes := s'.notes, threads := s.threads[t := p'])
  }

  lemma AllTold<T>(s: Race<T>, t: nat)
    requires t in s.threads && s.threads[t].Reading? && |s.threads[t].heard| == |s.threads[t].audience|
    ensures RestTold(s, s, t)
  {
    assert s.threads[t := s.threads[t]] == s.threads;
    assert NotesTo(s.threads[t].audience[|s.threads[t].heard|..], s.val, s.threads[t].v) == [];
  }

  lemma OneMoreTold<T>(s: Race<T>, s': Race<T>, t: nat)
    requires Enabled(s, Tell(t)) && RestTold(Next(s, Tell(t)), s', t)
    ensures RestTold(s, s', t)
  {
    var s1, p := Next(s, Tell(t)), s.threads[t];
    var first, rest := p.audience[|p.heard|], p.audience[|p.heard| + 1..];
    assert NotesTo(p.audience[|p.heard|..], s.val, p.v) == [Note(first, s.val, p.v)] + NotesTo(rest, s.val, p.v);
    assert s.threads[t := s1.threads[t]][t := s'.threads[t]] == s.threads[t := s'.threads[t]];
  }

  lemma {:induction false} TellRestNotes<T>(s: Race<T>, t: nat, n: nat)
    requires t in s.threads && s.threads[t].Reading? && |s.threads[t].heard| + n == |s.threads[t].audience|
    ensures EnabledRun(s, TellRest(t, n)) && RestTold(s, RunAll(s, TellRest(t, n)), t)
    decreases n
  {
    hide RestTold;
    if n == 0 {
      AllTold(s, t);
    } else {
      assert TellRest<T>(t, n)[1..] == TellRest(t, n - 1);
      TellRestNotes(Next(s, Tell(t)), t, n - 1);
      OneMoreTold(s, RunAll(Next(s, Tell(t)), TellRest(t, n - 1)), t);
    }
  }

  /** A call that no other overlaps does what setValue does by itself: it tells the
      listeners in the order of their keys and then stores, and nothing else; with
      the stored value it does nothing. */
  lemma CallAlone<T>(s: Race<T>, t: nat, v: T, cbs: seq<(nat, Callback)>)
    returns (acts: seq<Action<T>>)
    requires AllIdle(s) && t in s.threads && s.cbs == Keys(cbs)
    ensures EnabledRun(s, acts)
    ensures var s' := RunAll(s, acts);
            && AllIdle(s') && s'.val == v && s'.cbs == s.cbs && s'.threads.Keys == s.threads.Keys
            && s'.notes == s.notes + SetNotes(Var(s.val, cbs), v)
  {
    var begin: seq<Action<T>> := [Begin(t, v)];
    assert begin[1..] == [];
    if v == s.val {
      assert s.notes + [] == s.notes;
      acts := begin;
    } else {
      hide EnabledRun, RunAll, TellRest;
      var n := |s.cbs|;
      var s1 := Next(s, Begin(t, v));
      OneStep(s, Begin(t, v));
      TellRestNotes(s1, t, n);
      var s2 := RunAll(s1, TellRest(t, n));
      TwoSteps(s2, EndRead(t), Write(t));
      RunThen(s, begin, TellRest(t, n));
      RunThen(s, begin + TellRest(t, n), [EndRead(t), Write(t)]);
      acts := begin + TellRest(t, n) + [EndRead(t), Write(t)];
      assert s1.threads[t].audience[0..] == s.cbs;
      assert NotesTo(s.cbs, s.val, v) == SetNotes(Var(s.val, cbs), v);
    }
  }

  lemma OneStep<T>(s: Race<T>, a: Action<T>)
    requires Enabled(s, a)
    ensures EnabledRun(s, [a]) && RunAll(s, [a]) == Next(s, a)
  {
    assert [a][1..] == [];
  }

  // ---------- Two calls that overlap ----------

  function TellRest<T>(t: nat, n: nat): seq<Action<T>> {
    if n == 0 then [] else [Tell(t)] + TellRest(t, n - 1)
  }

  predicate LastTold<T(==)>(s: Race<T>, k: nat, v: T) {
    For(k, s.notes) != [] && For(k, s.notes)[|For(k, s.notes)| - 1].newVal == v
  }

  /** Only the call of thread `t`, and the notes, are not as before. */
  predicate OnlyCall<T(==)>(s: Race<T>, s': Race<T>, t: nat) {
    && s'.val == s.val && s'.cbs == s.cbs && s'.threads.Keys == s.threads.Keys
    && t in s.threads && forall u :: u in s.threads && u != t ==> s'.threads[u] == s.threads[u]
  }

  /** Thread `t` reads, and has told `k` as the last one or is going to: exactly
      once, in addition to `known`, where it is registered once. */
  predicate Telling<T(==)>(s: Race<T>, t: nat, v: T, n: nat, k: nat, known: seq<Note<T>>) {
    && t in s.threads && s.threads[t].Reading? && s.threads[t].v == v && s.threads[t].audience == s.cbs
    && |s.threads[t].heard| + n == |s.threads[t].audience|
    && var rest := s.threads[t].audience[|s.threads[t].heard|..];
       && (k in rest || LastTold(s, k, v))
       && (Distinct(s.cbs) ==>
             For(k, s.notes) == known + if k in rest then [] else [Note(k, s.val, v)])
  }

  lemma TellOne<T>(s: Race<T>, t: nat, v: T, n: nat, k: nat, known: seq<Note<T>>)
    requires Telling(s, t, v, n, k, known) && n > 0
    ensures Enabled(s, Tell(t)) && OnlyCall(s, Next(s, Tell(t)), t)
    ensures Telling(Next(s, Tell(t)), t, v, n - 1, k, known)
  {
    hide For;
    var p := s.threads[t];
    ToldOne(s, t, k);
    var next, rest := p.audience[|p.heard|], p.audience[|p.heard| + 1..];
    assert p.audience[|p.heard|..] == [next] + rest;
    assert Distinct(p.audience) ==> next !in rest;
  }

  /** The rest of a read phase: the audience is told, and nothing else happens. */
  lemma {:induction false} TellRestRun<T>(s: Race<T>, t: nat, v: T, n: nat, k: nat, known: seq<Note<T>>)
    requires Telling(s, t, v, n, k, known)
    ensures EnabledRun(s, TellRest(t, n))
    ensures OnlyCall(s, RunAll(s, TellRest(t, n)), t) && Telling(RunAll(s, TellRest(t, n)), t, v, 0, k, known)
    decreases n
  {
    hide Telling, Enabled, Next;
    if n == 0 {
      assert t in s.threads by { TellingThread(s, t, v, n, k, known); }
    } else {
      TellOne(s, t, v, n, k, known);
      assert TellRest<T>(t, n)[1..] == TellRest(t, n - 1);
      TellRestRun(Next(s, Tell(t)), t, v, n - 1, k, known);
    }
  }

  lemma TellingThread<T>(s: Race<T>, t: nat, v: T, n: nat, k: nat, known: seq<Note<T>>)
    requires Telling(s, t, v, n, k, known)
    ensures t in s.threads && OnlyCall(s, s, t)
  {
  }

  lemma {:induction false} RunThen<T>(s: Race<T>, a: seq<Action<T>>, b: seq<Action<T>>)
    requires EnabledRun(s, a) && EnabledRun(RunAll(s, a), b)
    ensures EnabledRun(s, a + b) && RunAll(s, a + b) == RunAll(RunAll(s, a), b)
    decreases |a|
  {
    hide Enabled, Next;
    if a == [] {
      assert a + b == b;
    } else {
      assert (a + b)[1..] == a[1..] + b;
      RunThen(Next(s, a[0]), a[1..], b);
    }
  }

  /** A whole read phase. */
  lemma ReadPhase<T>(s: Race<T>, t: nat, v: T, k: nat)
    returns (acts: seq<Action<T>>)
    requires t in s.threads && s.threads[t].Idle? && v != s.val && k in s.cbs
    ensures EnabledRun(s, acts) && OnlyCall(s, RunAll(s, acts), t) && LastTold(RunAll(s, acts), k, v)
    ensures RunAll(s, acts).threads[t].Between? && RunAll(s, acts).threads[t].v == v
    ensures Distinct(s.cbs) ==> For(k, RunAll(s, acts).notes) == For(k, s.notes) + [Note(k, s.val, v)]
  {
    hide For, LastTold, Distinct;
    var s1 := Next(s, Begin(t, v));
    assert s1.threads[t].audience[0..] == s.cbs;
    assert For(k, s.notes) + [] == For(k, s.notes);
    TellRestRun(s1, t, v, |s.cbs|, k, For(k, s.notes));
    var first := [Begin(t, v)];
    var last: seq<Action<T>> := [EndRead(t)];
    assert first[1..] == [] && last[1..] == [];
    RunThen(s, first, TellRest(t, |s.cbs|));
    var s2 := RunAll(s1, TellRest(t, |s.cbs|));
    assert s2.threads[t].audience[|s2.threads[t].heard|..] == [];
    KeepsNews(s2, EndRead(t), k, v);
    RunThen(s, first + TellRest(t, |s.cbs|), last);
    acts := first + TellRest(t, |s.cbs|) + last;
  }

  lemma KeepsNews<T>(s: Race<T>, a: Action<T>, k: nat, v: T)
    requires LastTold(s, k, v) && Enabled(s, a) && !a.Tell?
    ensures LastTold(Next(s, a), k, v) && For(k, Next(s, a).notes) == For(k, s.notes)
  {
  }

  lemma TwoSteps<T>(s: Race<T>, a: Action<T>, b: Action<T>)
    requires Enabled(s, a) && Enabled(Next(s, a), b)
    ensures EnabledRun(s, [a, b]) && RunAll(s, [a, b]) == Next(Next(s, a), b)
  {
    hide Enabled, Next;
    var s1 := Next(s, a);
    assert [a, b][1..] == [b] && [b][1..] == [];
    assert EnabledRun(Next(s1, b), []);
    assert EnabledRun(s1, [b]) && RunAll(s1, [b]) == Next(s1, b);
  }

  /** The two stores that follow two read phases. */
  lemma TwoStores<T>(s: Race<T>, t: nat, u: nat, v: T, w: T, k: nat)
    requires t != u && t in s.threads && s.threads[t].Between? && s.threads[t].v == v
    requires u in s.threads && s.threads[u].Between? && LastTold(s, k, w)
    requires forall x :: x in s.threads && x != t && x != u ==> s.threads[x].Idle?
    ensures EnabledRun(s, [Write(u), Write(t)])
    ensures var s' := RunAll(s, [Write(u), Write(t)]);
            AllIdle(s') && s'.val == v && LastTold(s', k, w) && For(k, s'.notes) == For(k, s.notes)
  {
    hide LastTold;
    var s1 := Next(s, Write(u));
    KeepsNews(s, Write(u), k, w);
    KeepsNews(s1, Write(t), k, w);
    TwoSteps(s, Write(u), Write(t));
  }

  /** Two calls that overlap, on any variable with a listener and with any two
      values, can leave a value stored that is not the one the listener was told
      last. */
  lemma OverlapLeavesOldNews<T>(s: Race<T>, t: nat, u: nat, v: T, w: T, k: nat)
    returns (acts: seq<Action<T>>)
    requires AllIdle(s) && t in s.threads && u in s.threads && t != u && k in s.cbs
    requires v != s.val && w != s.val && v != w
    ensures EnabledRun(s, acts)
    ensures AllIdle(RunAll(s, acts)) && RunAll(s, acts).val == v && LastTold(RunAll(s, acts), k, w)
    ensures Distinct(s.cbs) ==>
              For(k, RunAll(s, acts).notes) == For(k, s.notes) + [Note(k, s.val, v), Note(k, s.val, w)]
  {
    hide LastTold, EnabledRun, RunAll, Next, Enabled, For, Distinct;
    var first := ReadPhase(s, t, v, k);
    var s1 := RunAll(s, first);
    var second := ReadPhase(s1, u, w, k);
    var stores: seq<Action<T>> := [Write(u), Write(t)];
    RunThen(s, first, second);
    TwoStores(RunAll(s1, second), t, u, v, w, k);
    RunThen(s, first + second, stores);
    assert For(k, s.notes) + [Note(k, s.val, v)] + [Note(k, s.val, w)]
        == For(k, s.notes) + [Note(k, s.val, v), Note(k, s.val, w)];
    acts := first + second + stores;
  }
}

/** Configuration variables and their listeners, of include/config.hpp, without
    concurrency: what a listener is told over any run. */
module ConfigVars {
  import opened Options

  type Callback = nat

  /** One call of a listener, by its key. */
  datatype Note<T> = Note(key: nat, oldVal: T, newVal: T)

  /** A variable: its value and its listeners in the order of their keys. */
  datatype Var<T> = Var(val: T, cbs: seq<(nat, Callback)>)

  function Keys(cbs: seq<(nat, Callback)>): seq<nat> {
    seq(|cbs|, i requires 0 <= i < |cbs| => cbs[i].0)
  }

  function NotesFor<T>(cbs: seq<(nat, Callback)>, oldVal: T, newVal: T): seq<Note<T>> {
    seq(|cbs|, i requires 0 <= i < |cbs| => Note(cbs[i].0, oldVal, newVal))
  }

  /** The calls setValue makes: none where the value does not change. */
  function SetNotes<T(==)>(x: Var<T>, v: T): seq<Note<T>> {
    if x.val == v then [] else NotesFor(x.cbs, x.val, v)
  }

  function Erase(cbs: seq<(nat, Callback)>, key: nat): seq<(nat, Callback)> {
    if cbs == [] then []
    else Erase(cbs[..|cbs| - 1], key) + if cbs[|cbs| - 1].0 == key then [] else [cbs[|cbs| - 1]]
  }

  /** The listeners of a map iterated in key order, all below the next key. */
  predicate Ordered(cbs: seq<(nat, Callback)>, next: nat) {
    cbs != [] ==> cbs[|cbs| - 1].0 < next && Ordered(cbs[..|cbs| - 1], cbs[|cbs| - 1].0)
  }

  ghost predicate Registered(cbs: seq<(nat, Callback)>, key: nat) {
    exists cb: Callback :: (key, cb) in cbs
  }

  lemma {:induction false} EraseIs(cbs: seq<(nat, Callback)>, key: nat)
    ensures forall p :: p in Erase(cbs, key) <==> p in cbs && p.0 != key
  {
    if cbs == [] {
    } else {
      EraseIs(cbs[..|cbs| - 1], key);
      assert cbs == cbs[..|cbs| - 1] + [cbs[|cbs| - 1]];
    }
  }

  lemma {:induction false} EraseOrdered(cbs: seq<(nat, Callback)>, key: nat, next: nat)
    requires Ordered(cbs, next)
    ensures Ordered(Erase(cbs, key), next)
  {
    if cbs == [] {
    } else {
      var init, last := cbs[..|cbs| - 1], cbs[|cbs| - 1];
      EraseOrdered(init, key, last.0);
      var r := Erase(init, key);
      if last.0 != key {
        assert (r + [last])[..|r|] == r;
      } else {
        assert r + [] == r;
      }
    }
  }

  lemma {:induction false} NextIsFree(cbs: seq<(nat, Callback)>, next: nat)
    requires Ordered(cbs, next)
    ensures forall k: nat :: Registered(cbs, k) ==> k < next
  {
    if cbs == [] {
    } else {
      var init, last := cbs[..|cbs| - 1], cbs[|cbs| - 1];
      assert cbs == init + [last];
      NextIsFree(init, last.0);
      forall k: nat | Registered(cbs, k) ensures k < next {
        var cb :| (k, cb) in cbs;
        assert (k, cb) in init || (k, cb) == last;
        assert (k, cb) in init ==> Registered(init, k);
      }
    }
  }

  lemma EraseKeeps(cbs: seq<(nat, Callback)>, key: nat, next: nat)
    requires Ordered(cbs, next)
    ensures Ordered(Erase(cbs, key), next)
    ensures forall k: nat :: Registered(Erase(cbs, key), k) <==> Registered(cbs, k) && k != key
  {
    EraseOrdered(cbs, key, next);
    EraseIs(cbs, key);
    forall k: nat | Registered(cbs, k) && k != key ensures Registered(Erase(cbs, key), k) {
      var cb :| (k, cb) in cbs;
      assert (k, cb) in Erase(cbs, key);
    }
  }

  lemma {:induction false} KeysAscend(cbs: seq<(nat, Callback)>, next: nat)
    requires Ordered(cbs, next)
    ensures forall i, j :: 0 <= i < j < |cbs| ==> cbs[i].0 < cbs[j].0 < next
    ensures forall i :: 0 <= i < |cbs| ==> cbs[i].0 < next
  {
    if cbs == [] {
    } else {
      KeysAscend(cbs[..|cbs| - 1], cbs[|cbs| - 1].0);
    }
  }

  /** A change is told to exactly the registered listeners, each once, in the order
      of their keys, with the value before and the value after. */
  lemma ToldInOrder<T>(x: Var<T>, v: T, next: nat)
    requires Ordered(x.cbs, next)
    ensures var notes := SetNotes(x, v);
            && (forall i, j :: 0 <= i < j < |notes| ==> notes[i].key < notes[j].key)
            && (forall i :: 0 <= i < |notes| ==> notes[i].oldVal == x.val && notes[i].newVal == v)
            && forall k: nat :: (exists i :: 0 <= i < |notes| && notes[i].key == k) <==>
                                x.val != v && Registered(x.cbs, k)
  {
    KeysAscend(x.cbs, next);
    var notes := SetNotes(x, v);
    forall k: nat
      ensures (exists i :: 0 <= i < |notes| && notes[i].key == k) <==> x.val != v && Registered(x.cbs, k)
    {
      if x.val != v && Registered(x.cbs, k) {
        var cb: Callback :| (k, cb) in x.cbs;
        var i :| 0 <= i < |x.cbs| && x.cbs[i] == (k, cb);
        assert notes[i].key == k;
      }
      if i :| 0 <= i < |notes| && notes[i].key == k {
        assert (k, x.cbs[i].1) in x.cbs;
      }
    }
  }

  // ---------- The code, in place ----------

  /** The static key counter of addListener: one for each value type. */
  class KeyCounter {
    var key: nat
    constructor () ensures key == 0 { key := 0; }
  }

  class ConfigVar<T(==)> {
    const m_name: string
    const fromStr: string -> Option<T>
    const toStr: T -> Option<string>
    const counter: KeyCounter
    var m_val: T
    var m_cbs: seq<(nat, Callback)>
    var calls: seq<Note<T>>      // the calls made so far, of any listener

    ghost function Value(): Var<T> reads this { Var(m_val, m_cbs) }

    ghost predicate Valid() reads this, counter { Ordered(m_cbs, counter.key) }

    constructor (name: string, defaultVal: T, fromStr: string -> Option<T>, toStr: T -> Option<string>,
        counter: KeyCounter)
      ensures Valid() && Value() == Var(defaultVal, []) && calls == []
      ensures m_name == name && this.fromStr == fromStr && this.toStr == toStr && this.counter == counter
    {
      m_name, m_val, this.fromStr, this.toStr, this.counter := name, defaultVal, fromStr, toStr, counter;
      m_cbs, calls := [], [];
    }

    /** Tells every listener, in key order, under the read lock; then stores. */
    method SetValue(v: T)
      modifies this`m_val, this`calls
      ensures Value() == old(Value()).(val := v)
      ensures calls == old(calls) + SetNotes(old(Value()), v)
      ensures old(m_val) == v ==> calls == old(calls)
      ensures old(m_val) != v ==>
                && |calls| == |old(calls)| + |m_cbs|
                && forall i :: 0 <= i < |m_cbs| ==> calls[|old(calls)| + i] == Note(m_cbs[i].0, old(m_val), v)
    {
      if m_val == v {
        return;
      }
      ghost var notes := NotesFor(m_cbs, m_val, v);
      for i := 0 to |m_cbs|
        invariant m_val == old(m_val) && m_cbs == old(m_cbs)
        invariant calls == old(calls) + notes[..i]
      {
        assert notes[..i + 1] == notes[..i] + [Note(m_cbs[i].0, m_val, v)];
        calls := calls + [Note(m_cbs[i].0, m_val, v)];
      }
      assert notes[..|m_cbs|] == notes;
      m_val := v;
    }

    /** Nothing where the value cannot be printed. */
    method ToString() returns (text: string)
      ensures toStr(m_val).None? ==> text == ""
      ensures toStr(m_val).Some? ==> text == toStr(m_val).value
    {
      match toStr(m_val)
      case None => text := "";
      case Some(s) => text := s;
    }

    /** False, and nothing changed, where the text does not parse. */
    method FromString(text: string) returns (ok: bool)
      modifies this`m_val, this`calls
      ensures ok == fromStr(text).Some?
      ensures Value() == (if ok then old(Value()).(val := fromStr(text).value) else old(Value()))
      ensures calls == old(calls) + if ok then SetNotes(old(Value()), fromStr(text).value) else []
    {
      match fromStr(text)
      case None => ok := false;
      case Some(v) =>
        SetValue(v);
        ok := true;
    }

    method AddListener(cb: Callback) returns (key: nat)
      requires Valid()
      modifies this`m_cbs, counter
      ensures Valid() && key == old(counter.key) && counter.key == key + 1
      ensures m_cbs == old(m_cbs) + [(key, cb)]
    {
      key := counter.key;
      assert (m_cbs + [(key, cb)])[..|m_cbs|] == m_cbs;
      m_cbs := m_cbs + [(key, cb)];
      counter.key := counter.key + 1;
    }

    method DelListener(key: nat)
      requires Valid()
      modifies this`m_cbs
      ensures Valid() && m_cbs == Erase(old(m_cbs), key)
      ensures forall k :: Registered(m_cbs, k) <==> old(Registered(m_cbs, k)) && k != key
      ensures forall p :: p in m_cbs <==> p in old(m_cbs) && p.0 != key
    {
      EraseIs(m_cbs, key);
      EraseKeeps(m_cbs, key, counter.key);
      m_cbs := Erase(m_cbs, key);
    }

    method ClearListener()
      modifies this`m_cbs
      ensures Valid() && m_cbs == []
    {
      m_cbs := [];
    }

    method GetListener(key: nat) returns (cb: Option<Callback>)
      requires Valid()
      ensures cb.Some? <==> Registered(m_cbs, key)
      ensures cb.Some? ==> (key, cb.value) in m_cbs
    {
      cb := None;
      for i := 0 to |m_cbs|
        invariant forall j :: 0 <= j < i ==> m_cbs[j].0 != key
      {
        if m_cbs[i].0 == key {
          assert (key, m_cbs[i].1) in m_cbs;
          return Some(m_cbs[i].1);
        }
      }
    }
  }

  // ---------- Runs over all the variables of one value type ----------

  datatype Op<T> =
    | SetVal(x: string, v: T)
    | AddCb(x: string, cb: Callback)
    | DelCb(x: string, key: nat)
    | ClearCbs(x: string)

  /** The variables of one type with their shared key counter, and every
      listener call so far. */
  datatype Family<T> = Family(vars: map<string, Var<T>>, next: nat, notes: seq<Note<T>>)

  function Apply<T(==)>(s: Family<T>, op: Op<T>): Family<T>
    requires op.x in s.vars
  {
    var x := s.vars[op.x];
    match op
    case SetVal(n, v) => s.(vars := s.vars[n := x.(val := v)], notes := s.notes + SetNotes(x, v))
    case AddCb(n, cb) => s.(vars := s.vars[n := x.(cbs := x.cbs + [(s.next, cb)])], next := s.next + 1)
    case DelCb(n, key) => s.(vars := s.vars[n := x.(cbs := Erase(x.cbs, key))])
    case ClearCbs(n) => s.(vars := s.vars[n := x.(cbs := [])])
  }

  predicate OpsOn<T>(s: Family<T>, ops: seq<Op<T>>) {
    forall i :: 0 <= i < |ops| ==> ops[i].x in s.vars
  }

  function RunOps<T(==)>(s: Family<T>, ops: seq<Op<T>>): (r: Family<T>)
    requires OpsOn(s, ops)
    ensures r.vars.Keys == s.vars.Keys
    decreases |ops|
  {
    if ops == [] then s else
      var s1 := Apply(s, ops[0]);
      assert s1.vars.Keys == s.vars.Keys;
      assert forall i :: 0 <= i < |ops[1..]| ==> ops[1..][i] == ops[i + 1];
      RunOps(s1, ops[1..])
  }

  ghost predicate FamilyOk<T>(s: Family<T>) {
    && (forall n :: n in s.vars ==> Ordered(s.vars[n].cbs, s.next))
    && forall n, m, k: nat :: n in s.vars && m in s.vars && n != m && Registered(s.vars[n].cbs, k) ==>
        !Registered(s.vars[m].cbs, k)
  }

  /** The calls of one listener. */
  function For<T>(key: nat, notes: seq<Note<T>>): seq<Note<T>> {
    if notes == [] then [] else
      For(key, notes[..|notes| - 1]) + if notes[|notes| - 1].key == key then [notes[|notes| - 1]] else []
  }

  /** An unbroken chain of real changes from `start` to `end`. */
  predicate Chain<T(==)>(start: T, notes: seq<Note<T>>, end: T) {
    if notes == [] then start == end
    else
      var n := notes[|notes| - 1];
      n.newVal == end && n.oldVal != n.newVal && Chain(start, notes[..|notes| - 1], n.oldVal)
  }

  lemma {:induction false} ForConcat<T>(k: nat, a: seq<Note<T>>, b: seq<Note<T>>)
    ensures For(k, a + b) == For(k, a) + For(k, b)
  {
    if b == [] {
      assert a + b == a;
    } else {
      var b' := b[..|b| - 1];
      assert (a + b)[..|a + b| - 1] == a + b';
      ForConcat(k, a, b');
    }
  }

  lemma {:induction false} ChainConcat<T>(start: T, a: seq<Note<T>>, mid: T, b: seq<Note<T>>, end: T)
    requires Chain(start, a, mid) && Chain(mid, b, end)
    ensures Chain(start, a + b, end)
  {
    if b == [] {
      assert a + b == a;
    } else {
      assert (a + b)[..|a + b| - 1] == a + b[..|b| - 1];
      ChainConcat(start, a, mid, b[..|b| - 1], b[|b| - 1].oldVal);
    }
  }

  /** A listener is told exactly once of a change of its own variable. */
  lemma {:induction false} ForNotes<T>(k: nat, cbs: seq<(nat, Callback)>, o: T, n: T, next: nat)
    requires Ordered(cbs, next)
    ensures For(k, NotesFor(cbs, o, n)) == if Registered(cbs, k) then [Note(k, o, n)] else []
  {
    if cbs == [] {
    } else {
      var last, init := cbs[|cbs| - 1], cbs[..|cbs| - 1];
      assert NotesFor(cbs, o, n)[..|cbs| - 1] == NotesFor(init, o, n);
      ForNotes(k, init, o, n, last.0);
      NextIsFree(init, last.0);
      AddedKey(init, last.0, last.1);
      assert cbs == init + [last];
    }
  }

  predicate Removes<T>(op: Op<T>, x: string, k: nat) {
    op.x == x && (op.ClearCbs? || (op.DelCb? && op.key == k))
  }

  lemma ApplyOk<T>(s: Family<T>, op: Op<T>)
    requires FamilyOk(s) && op.x in s.vars
    ensures FamilyOk(Apply(s, op)) && s.next <= Apply(s, op).next
    ensures forall n, k: nat :: n in s.vars && k < s.next ==>
              (Registered(Apply(s, op).vars[n].cbs, k) <==> Registered(s.vars[n].cbs, k) && !Removes(op, n, k))
  {
    hide Ordered, Registered, Erase;
    var x := s.vars[op.x];
    match op
    case SetVal(_, _) =>
    case ClearCbs(_) => NoneRegistered(s.next);
    case DelCb(_, key) => EraseKeeps(x.cbs, key, s.next);
    case AddCb(_, cb) =>
      AddedKey(x.cbs, s.next, cb);
      OneMore(x.cbs, s.next, cb);
      forall n | n in s.vars ensures !Registered(s.vars[n].cbs, s.next) && Ordered(s.vars[n].cbs, s.next + 1) {
        NextIsFree(s.vars[n].cbs, s.next);
        OrderedBelow(s.vars[n].cbs, s.next);
      }
  }

  lemma NoneRegistered(next: nat)
    ensures Ordered([], next) && forall k: nat :: !Registered([], k)
  {
  }

  lemma OrderedBelow(cbs: seq<(nat, Callback)>, next: nat)
    requires Ordered(cbs, next)
    ensures Ordered(cbs, next + 1)
  {
  }

  lemma OneMore(cbs: seq<(nat, Callback)>, next: nat, cb: Callback)
    requires Ordered(cbs, next)
    ensures Ordered(cbs + [(next, cb)], next + 1)
  {
    assert (cbs + [(next, cb)])[..|cbs|] == cbs;
  }

  lemma AddedKey(cbs: seq<(nat, Callback)>, key: nat, cb: Callback)
    ensures forall k: nat :: Registered(cbs + [(key, cb)], k) <==> Registered(cbs, k) || k == key
  {
    forall k: nat ensures Registered(cbs + [(key, cb)], k) <==> Registered(cbs, k) || k == key {
      assert forall c: Callback :: (k, c) in cbs + [(key, cb)] <==> (k, c) in cbs || (k, c) == (key, cb);
    }
  }

  /** What one operation tells the listener `k` of variable `x`. */
  lemma ApplyNotes<T>(s: Family<T>, op: Op<T>, k: nat)
    requires FamilyOk(s) && op.x in s.vars
    ensures s.notes <= Apply(s, op).notes
    ensures var delta := Apply(s, op).notes[|s.notes|..];
            For(k, delta) ==
            if op.SetVal? && op.v != s.vars[op.x].val && Registered(s.vars[op.x].cbs, k)
            then [Note(k, s.vars[op.x].val, op.v)] else []
  {
    var x := s.vars[op.x];
    var delta := Apply(s, op).notes[|s.notes|..];
    if op.SetVal? && op.v != x.val {
      assert delta == NotesFor(x.cbs, x.val, op.v);
      ForNotes(k, x.cbs, x.val, op.v, s.next);
    } else {
      assert delta == [];
    }
  }

  lemma NotesSplit<T>(s: Family<T>, s1: Family<T>, s2: Family<T>, k: nat)
    requires s.notes <= s1.notes <= s2.notes
    ensures For(k, s2.notes[|s.notes|..]) == For(k, s1.notes[|s.notes|..]) + For(k, s2.notes[|s1.notes|..])
  {
    ForConcat(k, s1.notes[|s.notes|..], s2.notes[|s1.notes|..]);
    assert s2.notes[|s.notes|..] == s1.notes[|s.notes|..] + s2.notes[|s1.notes|..];
  }

  /** While a listener stays registered, the changes it is told of form an
      unbroken chain from the value it started with to the current one. */
  lemma {:induction false} ListenerChain<T>(s: Family<T>, ops: seq<Op<T>>, x: string, k: nat)
    requires FamilyOk(s) && OpsOn(s, ops) && x in s.vars && Registered(s.vars[x].cbs, k)
    requires forall i :: 0 <= i < |ops| ==> !Removes(ops[i], x, k)
    ensures var s' := RunOps(s, ops);
            && FamilyOk(s') && s.notes <= s'.notes && s.next <= s'.next && Registered(s'.vars[x].cbs, k)
            && Chain(s.vars[x].val, For(k, s'.notes[|s.notes|..]), s'.vars[x].val)
    decreases |ops|
  {
    hide FamilyOk, For, Chain, Registered, Apply;
    if ops == [] {
      assert s.notes[|s.notes|..] == [];
      NoLinks(s.vars[x].val, k);
    } else {
      var s1 := Apply(s, ops[0]);
      assert forall i :: 0 <= i < |ops[1..]| ==> ops[1..][i] == ops[i + 1];
      ApplyKeys(s, ops[0]);
      ApplyOk(s, ops[0]);
      ApplyNotes(s, ops[0], k);
      BelowNext(s, x, k);
      ListenerChain(s1, ops[1..], x, k);
      var s' := RunOps(s1, ops[1..]);
      NotesSplit(s, s1, s', k);
      OneLink(s, ops[0], x, k);
      ChainConcat(s.vars[x].val, For(k, s1.notes[|s.notes|..]), s1.vars[x].val, For(k, s'.notes[|s1.notes|..]),
          s'.vars[x].val);
    }
  }

  lemma NoLinks<T>(v: T, k: nat)
    ensures Chain(v, For(k, []), v)
  {
  }

  lemma ApplyKeys<T>(s: Family<T>, op: Op<T>)
    requires op.x in s.vars
    ensures Apply(s, op).vars.Keys == s.vars.Keys
  {
  }

  lemma BelowNext<T>(s: Family<T>, x: string, k: nat)
    requires FamilyOk(s) && x in s.vars && Registered(s.vars[x].cbs, k)
    ensures k < s.next
  {
    NextIsFree(s.vars[x].cbs, s.next);
  }

  lemma OneLink<T>(s: Family<T>, op: Op<T>, x: string, k: nat)
    requires FamilyOk(s) && op.x in s.vars && x in s.vars && Registered(s.vars[x].cbs, k)
    ensures s.notes <= Apply(s, op).notes
    ensures Chain(s.vars[x].val, For(k, Apply(s, op).notes[|s.notes|..]), Apply(s, op).vars[x].val)
  {
    hide For;
    ApplyNotes(s, op, k);
  }

  /** A key nobody is registered under is never used again: its listener hears
      nothing more. */
  lemma {:induction false} SilentAfterRemoval<T>(s: Family<T>, ops: seq<Op<T>>, k: nat)
    requires FamilyOk(s) && OpsOn(s, ops) && k < s.next
    requires forall n :: n in s.vars ==> !Registered(s.vars[n].cbs, k)
    ensures var s' := RunOps(s, ops);
            && s.notes <= s'.notes && For(k, s'.notes[|s.notes|..]) == [] && s.next <= s'.next
            && forall n :: n in s'.vars ==> !Registered(s'.vars[n].cbs, k)
    decreases |ops|
  {
    if ops == [] {
      assert s.notes[|s.notes|..] == [];
    } else {
      hide FamilyOk, For, Registered, Apply;
      var s1 := Apply(s, ops[0]);
      assert forall i :: 0 <= i < |ops[1..]| ==> ops[1..][i] == ops[i + 1];
      ApplyKeys(s, ops[0]);
      ApplyOk(s, ops[0]);
      ApplyNotes(s, ops[0], k);
      SilentAfterRemoval(s1, ops[1..], k);
      NotesSplit(s, s1, RunOps(s1, ops[1..]), k);
    }
  }

  /** A listener's whole life: registered on `x`, kept through `before`, removed,
      then anything. All it ever hears is one chain from the value at its
      registration to the value at its removal. */
  lemma ListenerLife<T>(s: Family<T>, x: string, cb: Callback, before: seq<Op<T>>, removal: Op<T>, after: seq<Op<T>>)
    requires FamilyOk(s) && x in s.vars && OpsOn(s, before) && OpsOn(s, after)
    requires forall i :: 0 <= i < |before| ==> !Removes(before[i], x, s.next)
    requires Removes(removal, x, s.next)
    ensures var k := s.next;
            var s1 := Apply(s, AddCb(x, cb));
            var s2 := RunOps(s1, before);
            var s3 := Apply(s2, removal);
            var s4 := RunOps(s3, after);
            && s.notes <= s4.notes
            && Chain(s.vars[x].val, For(k, s4.notes[|s.notes|..]), s2.vars[x].val)
  {
    hide RunOps, Chain, For, FamilyOk, Registered, Apply;
    var k := s.next;
    var s1 := Apply(s, AddCb(x, cb));
    ApplyOk(s, AddCb(x, cb));
    Registering(s, x, cb);
    ListenerChain(s1, before, x, k);
    var s2 := RunOps(s1, before);
    NothingAfter(s2, x, k, removal, after);
    var s4 := RunOps(Apply(s2, removal), after);
    NotesSplit(s, s2, s4, k);
    assert For(k, s2.notes[|s.notes|..]) + [] == For(k, s2.notes[|s.notes|..]);
  }

  lemma NothingAfter<T>(s: Family<T>, x: string, k: nat, removal: Op<T>, after: seq<Op<T>>)
    requires FamilyOk(s) && x in s.vars && Registered(s.vars[x].cbs, k) && Removes(removal, x, k) && OpsOn(s, after)
    ensures OpsOn(Apply(s, removal), after)
    ensures var s' := RunOps(Apply(s, removal), after);
            s.notes <= s'.notes && For(k, s'.notes[|s.notes|..]) == []
  {
    hide RunOps, For, FamilyOk, Registered, Apply;
    var s1 := Apply(s, removal);
    ApplyOk(s, removal);
    ApplyKeys(s, removal);
    ApplyNotes(s, removal, k);
    BelowNext(s, x, k);
    RegisteredOnce(s, x, k);
    SilentAfterRemoval(s1, after, k);
    NotesSplit(s, s1, RunOps(s1, after), k);
  }

  lemma Registering<T>(s: Family<T>, x: string, cb: Callback)
    requires x in s.vars
    ensures var s1 := Apply(s, AddCb(x, cb));
            && s1.vars.Keys == s.vars.Keys && s1.notes == s.notes && s1.next == s.next + 1
            && s1.vars[x].val == s.vars[x].val && Registered(s1.vars[x].cbs, s.next)
  {
    AddedKey(s.vars[x].cbs, s.next, cb);
  }

  lemma RegisteredOnce<T>(s: Family<T>, x: string, k: nat)
    requires FamilyOk(s) && x in s.vars && Registered(s.vars[x].cbs, k)
    ensures forall n :: n in s.vars && n != x ==> !Registered(s.vars[n].cbs, k)
  {
  }

  /** Keys are never reused among the variables of one type: of two registrations
      the later one gets the greater key. */
  lemma {:induction false} KeysIncrease<T>(s: Family<T>, ops: seq<Op<T>>, i: nat, j: nat)
    requires OpsOn(s, ops) && i < j < |ops| && ops[i].AddCb?
    ensures OpsOn(s, ops[..i]) && OpsOn(s, ops[..j])
    ensures RunOps(s, ops[..i]).next < RunOps(s, ops[..j]).next
    decreases |ops|
  {
    hide Apply;
    ApplyKeys(s, ops[0]);
    NextAfter(s, ops[0]);
    assert forall m :: 0 <= m < j ==> ops[..j][m] == ops[m];
    assert forall m :: 0 <= m < i ==> ops[..i][m] == ops[m];
    var s1 := Apply(s, ops[0]);
    assert ops[..j][1..] == ops[1..][..j - 1];
    if i == 0 {
      NextGrows(s1, ops[1..][..j - 1]);
    } else {
      assert ops[..i][1..] == ops[1..][..i - 1];
      KeysIncrease(s1, ops[1..], i - 1, j - 1);
    }
  }

  lemma NextAfter<T>(s: Family<T>, op: Op<T>)
    requires op.x in s.vars
    ensures Apply(s, op).next == if op.AddCb? then s.next + 1 else s.next
  {
  }

  lemma {:induction false} NextGrows<T>(s: Family<T>, ops: seq<Op<T>>)
    requires OpsOn(s, ops)
    ensures s.next <= RunOps(s, ops).next
    decreases |ops|
  {
    if ops == [] {
    } else {
      assert forall i :: 0 <= i < |ops[1..]| ==> ops[1..][i] == ops[i + 1];
      NextGrows(Apply(s, ops[0]), ops[1..]);
    }
  }
}

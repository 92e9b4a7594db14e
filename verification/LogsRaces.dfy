/** The "logs" variable under concurrent setValue calls: the live loggers follow
    what the listener was told, the variable keeps what was stored last. */
module LogsRaces {
  import opened ConfigVars
  import opened ConfigRaces
  import L = Loggers
  import opened Options

  type Definitions = seq<L.LogDef>

  /** The loggers after the listener has been called with these notes, in order. */
  function Follow(m: L.Manager, notes: seq<Note<Definitions>>): L.Manager {
    if notes == [] then m
    else
      var n := notes[|notes| - 1];
      L.OnChange(Follow(m, notes[..|notes| - 1]), n.oldVal, n.newVal)
  }

  lemma FollowTwo(m: L.Manager, a: Note<Definitions>, b: Note<Definitions>)
    ensures Follow(m, [a, b]) == L.OnChange(L.OnChange(m, a.oldVal, a.newVal), b.oldVal, b.newVal)
  {
    hide L.OnChange;
    assert [a, b][..1] == [a] && [a][..0] == [];
    assert Follow(m, []) == m;
    assert Follow(m, [a]) == L.OnChange(m, a.oldVal, a.newVal);
  }

  /** Two overlapping calls can store `v` while every logger that `w` defines is set
      up as `w` says, for any two new values where `w` carries nothing over from the
      value before. */
  lemma LoggersFollowOldNews(s: Race<Definitions>, t: nat, u: nat, v: Definitions, w: Definitions, k: nat, m: L.Manager)
    returns (acts: seq<Action<Definitions>>)
    requires AllIdle(s) && Distinct(s.cbs) && t in s.threads && u in s.threads && t != u && k in s.cbs
    requires v != s.val && w != s.val && v != w
    requires L.IsSet(s.val) && L.IsSet(w) && L.FirstKept(s.val, w) == |w|
    ensures EnabledRun(s, acts)
    ensures var end := RunAll(s, acts);
            && AllIdle(end) && end.val == v && For(k, s.notes) <= For(k, end.notes)
            && var live := Follow(m, For(k, end.notes)[|For(k, s.notes)|..]);
               forall d :: d in w ==>
                 d.name in live && exists was :: live[d.name] == L.Configure(was, d)
  {
    hide AllIdle, EnabledRun, RunAll, For, LastTold, Distinct, L.OnChange, L.Configure, L.IsSet, L.FirstKept, L.Find,
        Follow;
    acts := OverlapLeavesOldNews(s, t, u, v, w, k);
    var a, b := Note(k, s.val, v), Note(k, s.val, w);
    var known := For(k, s.notes);
    assert (known + [a, b])[|known|..] == [a, b];
    FollowTwo(m, a, b);
    var m1 := L.OnChange(m, s.val, v);
    forall d | d in w
      ensures d.name in L.OnChange(m1, s.val, w)
              && L.OnChange(m1, s.val, w)[d.name] == L.Configure(L.Get(m1, d.name), d)
    {
      L.OnChangeExact(m1, s.val, w, d.name);
      L.FindIs(w, d);
      assert w[..|w|] == w;
    }
  }
}

/** Loggers, appenders and the reaction to a changed "logs" configuration
    (src/log.cpp), as functions of values. */
module Loggers {
  import opened Options

  /** Levels: 0 unknown, 1 debug, 2 info, 3 warn, 4 error, 5 fatal. */
  type Level = int
  const UNKNOWN: Level := 0
  const DEBUG: Level := 1
  const FATAL: Level := 5
  const SILENT: Level := 100

  const FILE_APPENDER := 1
  const STDOUT_APPENDER := 2
  const DEFAULT_PATTERN := "%d{%Y-%m-%d %H:%M:%S}" + "%T%t%T%F%T" + "[%p]%T" + "[%c]%T" + "%f:%l%T%m%n"

  /** An appender; `own` says that its formatter was set from a string. F are
      formatters: their patterns, or the formatter objects themselves. */
  datatype App<F> = App(kind: int, file: string, level: Level, fmt: Option<F>, own: bool)

  datatype Log<F> = Log(level: Level, fmt: F, apps: seq<App<F>>)

  // ---------- Operations of a logger ----------

  function Inherit<F>(a: App<F>, f: F): App<F> {
    if a.own then a else a.(fmt := Some(f))
  }

  function SetFormatter<F>(l: Log<F>, f: F): (r: Log<F>)
    ensures |r.apps| == |l.apps|
  {
    l.(fmt := f, apps := seq(|l.apps|, i requires 0 <= i < |l.apps| => Inherit(l.apps[i], f)))
  }

  function AddAppender<F>(l: Log<F>, a: App<F>): Log<F> {
    l.(apps := l.apps + [if a.fmt.None? then a.(fmt := Some(l.fmt)) else a])
  }

  /** What is delivered at a level, and to which appenders: a logger without
      appenders hands over to the root logger. */
  function Delivered<F>(l: Log<F>, root: Option<Log<F>>, level: Level): seq<App<F>> {
    if level < l.level then []
    else if l.apps != [] then Passing(l.apps, level)
    else if root.Some? && level >= root.value.level then Passing(root.value.apps, level)
    else []
  }

  function Passing<F>(apps: seq<App<F>>, level: Level): seq<App<F>> {
    if apps == [] then [] else (if level >= apps[0].level then [apps[0]] else []) + Passing(apps[1..], level)
  }

  // ---------- Which formatter an appender uses ----------

  datatype LogOp<F> =
    | Add(a: App<F>)
    | Remove(i: nat)
    | Clear
    | LoggerFormatter(f: F)
    | AppenderFormatter(i: nat, f: F)     // from a string

  function ApplyOp<F>(l: Log<F>, op: LogOp<F>): Log<F> {
    match op
    case Add(a) => AddAppender(l, a)
    case Remove(i) => if i < |l.apps| then l.(apps := l.apps[..i] + l.apps[i + 1..]) else l
    case Clear => l.(apps := [])
    case LoggerFormatter(f) => SetFormatter(l, f)
    case AppenderFormatter(i, f) =>
      if i < |l.apps| then l.(apps := l.apps[i := l.apps[i].(fmt := Some(f), own := true)]) else l
  }

  function ApplyOps<F>(l: Log<F>, ops: seq<LogOp<F>>): Log<F>
    decreases |ops|
  {
    if ops == [] then l else ApplyOps(ApplyOp(l, ops[0]), ops[1..])
  }

  /** An appender without a formatter of its own uses its logger's. */
  predicate Inherits<F(==)>(l: Log<F>) {
    forall i :: 0 <= i < |l.apps| ==> l.apps[i].own || l.apps[i].fmt == Some(l.fmt)
  }

  /** An appender no logger has given a formatter to. */
  predicate FreshApp<F>(a: App<F>) { a.own ==> a.fmt.Some? }

  /** Adding an appender keeps the rule exactly when it has its own formatter, or
      none yet, or the logger's current one: an appender that was attached
      before brings its old logger formatter along. */
  lemma AddKeepsIff<F>(l: Log<F>, a: App<F>)
    requires Inherits(l) && FreshApp(a)
    ensures Inherits(AddAppender(l, a)) <==> a.own || a.fmt.None? || a.fmt == Some(l.fmt)
  {
    var r := AddAppender(l, a);
    assert r.apps[|l.apps|] == if a.fmt.None? then a.(fmt := Some(l.fmt)) else a;
    assert forall i :: 0 <= i < |l.apps| ==> r.apps[i] == l.apps[i];
  }

  /** Over any run that adds fresh appenders only, every attached appender without
      its own formatter uses exactly the logger's current one. */
  lemma {:induction false} AlwaysInherits<F>(l: Log<F>, ops: seq<LogOp<F>>)
    requires Inherits(l)
    requires forall i :: 0 <= i < |ops| && ops[i].Add? ==> FreshApp(ops[i].a) && (ops[i].a.own || ops[i].a.fmt.None?)
    ensures Inherits(ApplyOps(l, ops))
    decreases |ops|
  {
    if ops == [] {
    } else {
      var op := ops[0];
      if op.Add? {
        AddKeepsIff(l, op.a);
      }
      AlwaysInherits(ApplyOp(l, op), ops[1..]);
    }
  }

  /** Over any run of the logger's own operations, an attached appender with its
      own formatter is, unchanged, one that was there or one that was added. */
  lemma {:induction false} OwnVerbatim<F>(l: Log<F>, ops: seq<LogOp<F>>, a: App<F>)
    requires forall i :: 0 <= i < |ops| ==> !ops[i].AppenderFormatter? && (ops[i].Add? ==> FreshApp(ops[i].a))
    requires a in ApplyOps(l, ops).apps && a.own
    ensures a in l.apps || Add(a) in ops
    decreases |ops|
  {
    if ops == [] {
    } else {
      OwnVerbatim(ApplyOp(l, ops[0]), ops[1..], a);
    }
  }

  // ---------- Definitions, in the order of a std::set ----------

  datatype AppDef = AppDef(kind: int, level: Level, formatter: string, file: string)

  datatype LogDef = LogDef(name: string, level: Level, formatter: string, appenders: seq<AppDef>)

  /** std::string's order. */
  predicate Less(a: string, b: string) {
    if b == "" then false
    else if a == "" then true
    else if a[0] != b[0] then a[0] < b[0]
    else Less(a[1..], b[1..])
  }

  /** Names that are not ordered either way are equal: so the set's lookup, which
      only uses the order, finds the definition of the same name. */
  lemma {:induction false} LessTotal(a: string, b: string)
    ensures !Less(a, b) && !Less(b, a) <==> a == b
  {
    if a != "" && b != "" && a[0] == b[0] {
      LessTotal(a[1..], b[1..]);
      assert a == [a[0]] + a[1..] && b == [b[0]] + b[1..];
    }
  }

  lemma {:induction false} LessTransitive(a: string, b: string, c: string)
    requires Less(a, b) && Less(b, c)
    ensures Less(a, c) && !Less(c, a)
  {
    if a != "" && a[0] == b[0] == c[0] {
      LessTransitive(a[1..], b[1..], c[1..]);
    }
  }

  /** Alphabetical order: where two names first differ, the one that ends there or
      has the smaller character comes first. */
  ghost predicate Alphabetical(a: string, b: string) {
    exists k :: 0 <= k <= |a| && k < |b| && a[..k] == b[..k] && (k == |a| || a[k] < b[k])
  }

  lemma {:induction false} LessIs(a: string, b: string)
    ensures Less(a, b) <==> Alphabetical(a, b)
  {
    forall k | 0 < k <= |a| && k < |b| && a[..k] == b[..k] ensures a[0] == b[0] {
      assert a[..k][0] == b[..k][0];
    }
    if a == "" || b == "" || a[0] != b[0] {
      assert b != "" ==> a[..0] == b[..0];
    } else {
      LessIs(a[1..], b[1..]);
      forall k | 0 <= k < |a| && k < |b| - 1
        ensures a[1..][..k] == b[1..][..k] <==> a[..k + 1] == b[..k + 1]
      {
        assert a[..k + 1] == [a[0]] + a[1..][..k] && b[..k + 1] == [b[0]] + b[1..][..k];
      }
    }
  }

  /** The definitions of a std::set in iteration order. */
  predicate IsSet(defs: seq<LogDef>) {
    forall i, j :: 0 <= i < j < |defs| ==> Less(defs[i].name, defs[j].name)
  }

  // ---------- A std::set from a list ----------

  /** std::set::insert: nothing happens where the name is there already. */
  function Insert(defs: seq<LogDef>, d: LogDef): seq<LogDef> {
    if defs == [] then [d]
    else if Less(d.name, defs[0].name) then [d] + defs
    else if Less(defs[0].name, d.name) then [defs[0]] + Insert(defs[1..], d)
    else defs
  }

  /** The set that the cast from a YAML sequence builds. */
  function SetOf(list: seq<LogDef>): seq<LogDef> {
    if list == [] then [] else Insert(SetOf(list[..|list| - 1]), list[|list| - 1])
  }

  lemma {:induction false} InsertIs(defs: seq<LogDef>, d: LogDef)
    requires IsSet(defs)
    ensures IsSet(Insert(defs, d))
    ensures forall e :: e in Insert(defs, d) <==> e in defs || (e == d && !Named(defs, d.name))
  {
    if defs == [] {
    } else {
      var first, rest := defs[0], defs[1..];
      assert defs == [first] + rest;
      assert forall j :: 0 <= j < |rest| ==> rest[j] == defs[j + 1];
      assert IsSet(rest);
      InsertIs(rest, d);
      LessTotal(d.name, first.name);
      forall e | e in rest ensures Less(first.name, e.name) && (Less(d.name, first.name) ==> e.name != d.name) {
        var j :| 0 <= j < |rest| && rest[j] == e;
        if Less(d.name, first.name) {
          LessTransitive(d.name, first.name, e.name);
          LessTotal(d.name, e.name);
        }
      }
      if Less(d.name, first.name) {
        InFront(d, defs);
      } else if Less(first.name, d.name) {
        InFront(first, Insert(rest, d));
      }
    }
  }

  lemma InFront(d: LogDef, defs: seq<LogDef>)
    requires IsSet(defs) && (defs != [] ==> Less(d.name, defs[0].name))
    ensures IsSet([d] + defs)
  {
    var more := [d] + defs;
    forall i, j | 0 <= i < j < |more| ensures Less(more[i].name, more[j].name) {
      if i == 0 && j > 1 {
        LessTransitive(d.name, defs[0].name, defs[j - 1].name);
      }
    }
  }

  predicate FirstOfItsName(list: seq<LogDef>, i: nat)
    requires i < |list|
  {
    forall j :: 0 <= j < i ==> list[j].name != list[i].name
  }

  ghost predicate Leads(list: seq<LogDef>, e: LogDef) {
    exists i :: 0 <= i < |list| && list[i] == e && FirstOfItsName(list, i)
  }

  lemma LeadsNext(list: seq<LogDef>, d: LogDef)
    ensures forall e :: Leads(list + [d], e) <==> Leads(list, e) || (e == d && !Named(list, d.name))
  {
    var more := list + [d];
    assert more[|list|] == d;
    assert forall i :: 0 <= i < |list| ==> more[i] == list[i] && FirstOfItsName(list, i) == FirstOfItsName(more, i);
    assert FirstOfItsName(more, |list|) <==> !Named(list, d.name);
  }

  lemma {:induction false} SomeoneLeads(list: seq<LogDef>, name: string)
    ensures Named(list, name) <==> exists e :: Leads(list, e) && e.name == name
  {
    if list == [] {
    } else {
      hide Leads;
      var init, d := list[..|list| - 1], list[|list| - 1];
      assert list == init + [d];
      SomeoneLeads(init, name);
      LeadsNext(init, d);
      assert Named(list, name) <==> Named(init, name) || d.name == name;
    }
  }

  lemma {:induction false} SetOfLeads(list: seq<LogDef>)
    ensures IsSet(SetOf(list))
    ensures forall e :: e in SetOf(list) <==> Leads(list, e)
  {
    if list == [] {
    } else {
      hide Leads, Insert, IsSet;
      var init, d := list[..|list| - 1], list[|list| - 1];
      assert list == init + [d];
      SetOfLeads(init);
      InsertIs(SetOf(init), d);
      LeadsNext(init, d);
      SomeoneLeads(init, d.name);
    }
  }

  /** The set has the first listed definition of each name and no other, in
      alphabetical order. */
  lemma SetOfIs(list: seq<LogDef>)
    ensures IsSet(SetOf(list))
    ensures forall e :: e in SetOf(list) <==>
              exists i :: 0 <= i < |list| && list[i] == e && forall j :: 0 <= j < i ==> list[j].name != e.name
    ensures forall i, j :: 0 <= i < j < |SetOf(list)| ==>
              Alphabetical(SetOf(list)[i].name, SetOf(list)[j].name)
  {
    hide Less, SetOf, Alphabetical;
    SetOfLeads(list);
    forall i, j | 0 <= i < j < |SetOf(list)| ensures Alphabetical(SetOf(list)[i].name, SetOf(list)[j].name) {
      LessIs(SetOf(list)[i].name, SetOf(list)[j].name);
    }
  }

  predicate Equivalent(a: string, b: string) { !Less(a, b) && !Less(b, a) }

  /** std::set::find. */
  function Find(defs: seq<LogDef>, name: string): (r: Option<LogDef>)
    ensures r.Some? ==> r.value in defs && Equivalent(r.value.name, name)
    ensures r.None? ==> forall d :: d in defs ==> !Equivalent(d.name, name)
  {
    if defs == [] then None
    else if Equivalent(defs[0].name, name) then Some(defs[0])
    else Find(defs[1..], name)
  }

  lemma {:induction false} FindIs(defs: seq<LogDef>, d: LogDef)
    requires IsSet(defs) && d in defs
    ensures Find(defs, d.name) == Some(d)
  {
    var e := Find(defs, d.name);
    LessTotal(d.name, d.name);
    if e.Some? {
      var i :| 0 <= i < |defs| && defs[i] == d;
      var j :| 0 <= j < |defs| && defs[j] == e.value;
      LessTotal(defs[j].name, defs[i].name);
      LessTotal(defs[i].name, defs[i].name);
    }
  }

  predicate Named(defs: seq<LogDef>, name: string) {
    exists d :: d in defs && d.name == name
  }

  lemma FindNamed(defs: seq<LogDef>, name: string)
    ensures Find(defs, name).Some? <==> Named(defs, name)
    ensures Find(defs, name).Some? ==> Find(defs, name).value.name == name
  {
    LessTotal(name, name);
    if Find(defs, name).Some? {
      LessTotal(Find(defs, name).value.name, name);
    }
  }

  // ---------- The reaction to a change ----------

  type Manager = map<string, Log<string>>

  const NEW_LOGGER: Log<string> := Log(DEBUG, DEFAULT_PATTERN, [])

  function Get(m: Manager, name: string): Log<string> {
    if name in m then m[name] else NEW_LOGGER
  }

  function BuildAppender(a: AppDef): App<string> {
    App(a.kind, if a.kind == FILE_APPENDER then a.file else "", if a.level != UNKNOWN then a.level else DEBUG,
        if a.formatter != "" then Some(a.formatter) else None, a.formatter != "")
  }

  function AddAll(l: Log<string>, defs: seq<AppDef>): Log<string>
    decreases |defs|
  {
    if defs == [] then l else AddAll(AddAppender(l, BuildAppender(defs[0])), defs[1..])
  }

  /** A definition applied to a logger: level, formatter unless empty, and the
      appenders rebuilt. */
  function Configure(l: Log<string>, d: LogDef): Log<string> {
    var l1 := l.(level := d.level);
    var l2 := if d.formatter != "" then SetFormatter(l1, d.formatter) else l1;
    AddAll(l2.(apps := []), d.appenders)
  }

  function Silence(l: Log<string>): Log<string> { l.(level := SILENT, apps := []) }

  /** The listener's first loop from the i-th new definition on; it returns out of
      the whole listener at an unchanged definition. */
  function ApplyNew(m: Manager, olds: seq<LogDef>, news: seq<LogDef>, i: nat): Manager
    requires i <= |news|
    decreases |news| - i
  {
    if i == |news| then RemoveOld(m, olds, news, 0)
    else
      var v := news[i];
      if Find(olds, v.name) == Some(v) then m
      else ApplyNew(m[v.name := Configure(Get(m, v.name), v)], olds, news, i + 1)
  }

  /** Its second loop. */
  function RemoveOld(m: Manager, olds: seq<LogDef>, news: seq<LogDef>, i: nat): Manager
    requires i <= |olds|
    decreases |olds| - i
  {
    if i == |olds| then m
    else
      var v := olds[i];
      RemoveOld(if Find(news, v.name).None? then m[v.name := Silence(Get(m, v.name))] else m, olds, news, i + 1)
  }

  function OnChange(m: Manager, olds: seq<LogDef>, news: seq<LogDef>): Manager {
    ApplyNew(m, olds, news, 0)
  }

  // ---------- The exact effect, name by name ----------

  /** The position of the first new definition carried over unchanged. */
  function FirstKept(olds: seq<LogDef>, news: seq<LogDef>): (k: nat)
    ensures k <= |news| && (k < |news| ==> news[k] in olds)
    ensures forall i :: 0 <= i < k ==> news[i] !in olds
  {
    if news == [] || news[0] in olds then 0
    else
      var k := FirstKept(olds, news[1..]);
      assert forall i :: 1 <= i < |news| ==> news[i] == news[1..][i - 1];
      k + 1
  }

  function Lookup(m: Manager, name: string): Option<Log<string>> {
    if name in m then Some(m[name]) else None
  }

  /** The logger of a name afterwards: configured if its definition comes before
      the first kept one; silenced if its definition is gone and none was kept;
      else as it was. */
  function Outcome(m: Manager, olds: seq<LogDef>, news: seq<LogDef>, name: string): Option<Log<string>> {
    var k := FirstKept(olds, news);
    if Find(news[..k], name).Some? then Some(Configure(Get(m, name), Find(news[..k], name).value))
    else if k == |news| && Named(olds, name) then Some(Silence(Get(m, name)))
    else Lookup(m, name)
  }

  lemma FindKept(olds: seq<LogDef>, v: LogDef)
    requires IsSet(olds)
    ensures Find(olds, v.name) == Some(v) <==> v in olds
  {
    if v in olds {
      FindIs(olds, v);
    }
  }

  lemma {:induction false} RemoveOldIs(m: Manager, olds: seq<LogDef>, news: seq<LogDef>, i: nat, name: string)
    requires IsSet(olds) && i <= |olds|
    ensures Lookup(RemoveOld(m, olds, news, i), name) ==
            if Named(olds[i..], name) && !Named(news, name) then Some(Silence(Get(m, name))) else Lookup(m, name)
    decreases |olds| - i
  {
    if i < |olds| {
      var v := olds[i];
      var m' := if Find(news, v.name).None? then m[v.name := Silence(Get(m, v.name))] else m;
      FindNamed(news, v.name);
      RemoveOldIs(m', olds, news, i + 1, name);
      NamedStep(olds, i, name);
    }
  }

  lemma NamedStep(defs: seq<LogDef>, i: nat, name: string)
    requires IsSet(defs) && i < |defs|
    ensures Named(defs[i..], name) <==> defs[i].name == name || Named(defs[i + 1..], name)
    ensures defs[i].name == name ==> !Named(defs[i + 1..], name)
  {
    assert defs[i..] == [defs[i]] + defs[i + 1..];
    forall d | d in defs[i + 1..] ensures d.name != defs[i].name {
      var j :| i + 1 <= j < |defs| && defs[j] == d;
      LessTotal(d.name, defs[i].name);
    }
  }

  /** The outcome for a name when the next `k` of the new definitions from the
      i-th on are applied, and the old ones removed if these are all. */
  function OutcomeOf(m: Manager, olds: seq<LogDef>, news: seq<LogDef>, i: nat, k: nat, name: string)
    : Option<Log<string>>
    requires i + k <= |news|
  {
    var next := Find(news[i..][..k], name);
    if next.Some? then Some(Configure(Get(m, name), next.value))
    else if i + k == |news| && Named(olds, name) && !Named(news, name) then Some(Silence(Get(m, name)))
    else Lookup(m, name)
  }

  lemma {:induction false} ApplyNewIs(m: Manager, olds: seq<LogDef>, news: seq<LogDef>, i: nat, name: string)
    requires IsSet(olds) && IsSet(news) && i <= |news|
    ensures Lookup(ApplyNew(m, olds, news, i), name) == OutcomeOf(m, olds, news, i, FirstKept(olds, news[i..]), name)
    decreases |news| - i
  {
    hide OutcomeOf, Lookup, Configure, RemoveOld, Find, IsSet;
    if i == |news| {
      assert news[i..] == [];
      RemovedOutcome(m, olds, news, name);
    } else {
      var v := news[i];
      assert news[i..][0] == v && news[i..][1..] == news[i + 1..];
      FindKept(olds, v);
      if v in olds {
        KeptOutcome(m, olds, news, i, name);
      } else {
        ApplyNewIs(m[v.name := Configure(Get(m, v.name), v)], olds, news, i + 1, name);
        AppliedOutcome(m, olds, news, i, FirstKept(olds, news[i + 1..]), name);
      }
    }
  }

  lemma RemovedOutcome(m: Manager, olds: seq<LogDef>, news: seq<LogDef>, name: string)
    requires IsSet(olds)
    ensures Lookup(RemoveOld(m, olds, news, 0), name) == OutcomeOf(m, olds, news, |news|, 0, name)
  {
    hide RemoveOld;
    assert news[|news|..][..0] == [] && olds[0..] == olds;
    RemoveOldIs(m, olds, news, 0, name);
  }

  lemma KeptOutcome(m: Manager, olds: seq<LogDef>, news: seq<LogDef>, i: nat, name: string)
    requires i < |news|
    ensures Lookup(m, name) == OutcomeOf(m, olds, news, i, 0, name)
  {
    assert news[i..][..0] == [];
  }

  lemma AppliedOutcome(m: Manager, olds: seq<LogDef>, news: seq<LogDef>, i: nat, k: nat, name: string)
    requires IsSet(news) && i + 1 + k <= |news|
    ensures var m' := m[news[i].name := Configure(Get(m, news[i].name), news[i])];
            OutcomeOf(m', olds, news, i + 1, k, name) == OutcomeOf(m, olds, news, i, k + 1, name)
  {
    hide Configure, Silence, Find;
    assert news[i..][..k + 1] == [news[i]] + news[i + 1..][..k];
    FindStep(news, i, k + 1, name);
  }

  /** Looking up a name among the next `k` definitions of a set. */
  lemma FindStep(news: seq<LogDef>, i: nat, k: nat, name: string)
    requires IsSet(news) && i < |news| && 0 < k <= |news| - i
    ensures var rest := news[i + 1..][..k - 1];
            Find([news[i]] + rest, name) == if news[i].name == name then Some(news[i]) else Find(rest, name)
    ensures news[i].name == name ==> Find(news[i + 1..][..k - 1], name).None? && Named(news, name)
  {
    var v, rest := news[i], news[i + 1..][..k - 1];
    LessTotal(v.name, name);
    assert ([v] + rest)[1..] == rest;
    if v.name == name {
      assert v in news;
      NamedStep(news, i, name);
      FindNamed(rest, name);
      forall d | d in rest ensures d.name != name {
        assert d in news[i + 1..];
      }
    }
  }

  /** Exactly the new definitions before the first one carried over unchanged are
      applied, and only if there is no such definition are the missing ones
      silenced. Every other logger is as it was. */
  lemma OnChangeExact(m: Manager, olds: seq<LogDef>, news: seq<LogDef>, name: string)
    requires IsSet(olds) && IsSet(news)
    ensures Lookup(OnChange(m, olds, news), name) == Outcome(m, olds, news, name)
  {
    hide Configure, Silence, Less, Equivalent, ApplyNew;
    ApplyNewIs(m, olds, news, 0, name);
    assert news[0..] == news;
    FindNamed(news, name);
    assert news[..|news|] == news;
  }

  // ---------- Loggers that share appenders ----------

  /** A logger but for the formatters of appenders without one of their own, which
      another logger that shares the appender may set. */
  function Outline(l: Log<string>): Log<string> {
    var bare := seq(|l.apps|, i requires 0 <= i < |l.apps| =>
                        if l.apps[i].own then l.apps[i] else l.apps[i].(fmt := None));
    l.(apps := bare)
  }

  ghost predicate SameOutlines(m1: Manager, m2: Manager) {
    m1.Keys == m2.Keys && forall n :: n in m1 ==> Outline(m1[n]) == Outline(m2[n])
  }

  /** What a definition makes of a logger does not depend on its old appenders. */
  lemma ConfigureOutline(l1: Log<string>, l2: Log<string>, d: LogDef)
    requires Outline(l1) == Outline(l2)
    ensures Configure(l1, d) == Configure(l2, d)
  {
    assert l1.fmt == Outline(l1).fmt && l2.fmt == Outline(l2).fmt;
  }

  lemma SilenceOutline(l1: Log<string>, l2: Log<string>)
    requires Outline(l1) == Outline(l2)
    ensures Silence(l1) == Silence(l2)
  {
    assert l1.fmt == Outline(l1).fmt && l2.fmt == Outline(l2).fmt;
  }

  lemma SetOutline(m1: Manager, m2: Manager, name: string, l: Log<string>)
    requires SameOutlines(m1, m2)
    ensures SameOutlines(m1[name := l], m2[name := l])
  {
    hide Outline;
  }

  lemma {:induction false} RemoveOutlines(m1: Manager, m2: Manager, olds: seq<LogDef>, news: seq<LogDef>, i: nat)
    requires SameOutlines(m1, m2) && i <= |olds|
    ensures SameOutlines(RemoveOld(m1, olds, news, i), RemoveOld(m2, olds, news, i))
    decreases |olds| - i
  {
    if i == |olds| {
    } else {
      hide SameOutlines, Silence;
      var n := olds[i].name;
      if Find(news, n).None? {
        GetOutline(m1, m2, n);
        SilenceOutline(Get(m1, n), Get(m2, n));
        SetOutline(m1, m2, n, Silence(Get(m1, n)));
        RemoveOutlines(m1[n := Silence(Get(m1, n))], m2[n := Silence(Get(m2, n))], olds, news, i + 1);
      } else {
        RemoveOutlines(m1, m2, olds, news, i + 1);
      }
    }
  }

  lemma GetOutline(m1: Manager, m2: Manager, name: string)
    requires SameOutlines(m1, m2)
    ensures Outline(Get(m1, name)) == Outline(Get(m2, name))
  {
    hide Outline;
  }

  lemma {:induction false} ApplyOutlines(m1: Manager, m2: Manager, olds: seq<LogDef>, news: seq<LogDef>, i: nat)
    requires SameOutlines(m1, m2) && i <= |news|
    ensures SameOutlines(ApplyNew(m1, olds, news, i), ApplyNew(m2, olds, news, i))
    decreases |news| - i
  {
    hide SameOutlines, Configure, Find;
    if i == |news| {
      RemoveOutlines(m1, m2, olds, news, 0);
    } else {
      var v := news[i];
      if Find(olds, v.name) != Some(v) {
        GetOutline(m1, m2, v.name);
        ConfigureOutline(Get(m1, v.name), Get(m2, v.name), v);
        SetOutline(m1, m2, v.name, Configure(Get(m1, v.name), v));
        ApplyOutlines(m1[v.name := Configure(Get(m1, v.name), v)], m2[v.name := Configure(Get(m2, v.name), v)],
                      olds, news, i + 1);
      }
    }
  }

  // ---------- What the listener says about it ----------

  datatype Notice = Added(name: string) | Modified(name: string) | Deleted(name: string)

  function NoticeOf(olds: seq<LogDef>, d: LogDef): Notice {
    if Find(olds, d.name).None? then Added(d.name) else Modified(d.name)
  }

  /** The old definitions that the new ones do not name, in order. */
  function Gone(olds: seq<LogDef>, news: seq<LogDef>): seq<Notice> {
    if olds == [] then []
    else
      var d := olds[|olds| - 1];
      Gone(olds[..|olds| - 1], news) + if Find(news, d.name).None? then [Deleted(d.name)] else []
  }

  /** One line for each definition applied, as added or as modified, and then, if
      none is carried over unchanged, one for each that is gone. */
  function Notices(olds: seq<LogDef>, news: seq<LogDef>): seq<Notice> {
    var k := FirstKept(olds, news);
    seq(k, i requires 0 <= i < k => NoticeOf(olds, news[i])) + if k == |news| then Gone(olds, news) else []
  }

  lemma {:induction false} GoneIs(olds: seq<LogDef>, news: seq<LogDef>)
    requires IsSet(olds)
    ensures forall x :: x in Gone(olds, news) <==> exists d :: d in olds && x == Deleted(d.name) && !Named(news, d.name)
    ensures forall i, j :: 0 <= i < j < |Gone(olds, news)| ==> Less(Gone(olds, news)[i].name, Gone(olds, news)[j].name)
  {
    if olds == [] {
    } else {
      hide Less, Named, Find, IsSet;
      var init, d := olds[..|olds| - 1], olds[|olds| - 1];
      assert olds == init + [d];
      LastInSet(olds);
      GoneIs(init, news);
      FindNamed(news, d.name);
      forall i | 0 <= i < |Gone(init, news)| ensures Less(Gone(init, news)[i].name, d.name) {
        assert Gone(init, news)[i] in Gone(init, news);
      }
    }
  }

  lemma LastInSet(defs: seq<LogDef>)
    requires IsSet(defs) && defs != []
    ensures IsSet(defs[..|defs| - 1])
    ensures forall e :: e in defs[..|defs| - 1] ==> Less(e.name, defs[|defs| - 1].name)
  {
    hide Less;
  }

  /** Which lines the listener logs: for the definitions before the first one carried
      over, in order, "added" where no old definition has the name and "modified"
      where one has; then, if none is carried over, "deleted" for each old name that
      is gone, in the order of the names. */
  lemma NoticesAre(olds: seq<LogDef>, news: seq<LogDef>)
    requires IsSet(olds)
    ensures var k, said := FirstKept(olds, news), Notices(olds, news);
            && k <= |said| && (k < |news| ==> |said| == k)
            && (forall i :: 0 <= i < k ==>
                  said[i] == if exists d :: d in olds && d.name == news[i].name then Modified(news[i].name)
                             else Added(news[i].name))
            && (k == |news| ==> forall x :: x in said[k..] <==>
                  exists d :: d in olds && x == Deleted(d.name) && forall e :: e in news ==> e.name != d.name)
            && forall i, j :: k <= i < j < |said| ==> Alphabetical(said[i].name, said[j].name)
  {
    hide Less, Find, Alphabetical, Notices, FirstKept, Gone, Named, IsSet, NoticeOf;
    var k, said := FirstKept(olds, news), Notices(olds, news);
    NoticesParts(olds, news);
    forall i | 0 <= i < k
      ensures said[i] == if exists d :: d in olds && d.name == news[i].name then Modified(news[i].name)
                         else Added(news[i].name)
    {
      NoticeOfIs(olds, news[i]);
    }
    GoneIs(olds, news);
    forall name ensures Named(news, name) <==> exists e :: e in news && e.name == name {
      NamedMeans(news, name);
    }
    forall i, j | k <= i < j < |said| ensures Alphabetical(said[i].name, said[j].name) {
      assert said[i] == said[k..][i - k] && said[j] == said[k..][j - k];
      LessIs(said[i].name, said[j].name);
    }
  }

  lemma NoticesParts(olds: seq<LogDef>, news: seq<LogDef>)
    ensures var k, said := FirstKept(olds, news), Notices(olds, news);
            && k <= |said| && (forall i :: 0 <= i < k ==> said[i] == NoticeOf(olds, news[i]))
            && said[k..] == if k == |news| then Gone(olds, news) else []
  {
    hide Gone, NoticeOf;
  }

  lemma NoticeOfIs(olds: seq<LogDef>, d: LogDef)
    ensures NoticeOf(olds, d) ==
            if exists e :: e in olds && e.name == d.name then Modified(d.name) else Added(d.name)
  {
    hide Find;
    FindNamed(olds, d.name);
  }

  lemma NamedMeans(defs: seq<LogDef>, name: string)
    ensures Named(defs, name) <==> exists e :: e in defs && e.name == name
  {
  }

  // ---------- What was promised, and when it is kept ----------

  /** Every change detected: new and changed definitions applied, missing ones
      silenced, unchanged ones left alone. */
  function Promised(m: Manager, olds: seq<LogDef>, news: seq<LogDef>, name: string): Option<Log<string>> {
    match Find(news, name)
    case Some(d) => if d in olds then Lookup(m, name) else Some(Configure(Get(m, name), d))
    case None => if Named(olds, name) then Some(Silence(Get(m, name))) else Lookup(m, name)
  }

  /** Nothing is left to do after the first definition carried over. */
  predicate NothingMissed(olds: seq<LogDef>, news: seq<LogDef>) {
    var k := FirstKept(olds, news);
    k == |news| ||
    ((forall d :: d in news[k..] ==> d in olds) && (forall d :: d in olds ==> Named(news, d.name)))
  }

  lemma {:induction false} FindPrefix(news: seq<LogDef>, k: nat, name: string)
    requires IsSet(news) && k <= |news|
    ensures Find(news[..k], name).Some? ==> Find(news, name) == Find(news[..k], name)
    ensures Find(news[..k], name).None? && Find(news, name).Some? ==> Find(news, name).value in news[k..]
  {
    hide Find;
    FindNamed(news, name);
    FindNamed(news[..k], name);
    assert news == news[..k] + news[k..];
    if Find(news[..k], name).Some? {
      var d := Find(news[..k], name).value;
      assert d in news;
      FindIs(news, d);
    } else if Find(news, name).Some? {
      var d := Find(news, name).value;
      assert d in news[..k] || d in news[k..];
    }
  }

  /** The whole difference takes effect, for every set of live loggers, exactly
      when no added, changed or removed definition is skipped: nothing was carried
      over, or nothing remained to be done after the first one that was. */
  lemma DetectedIff(olds: seq<LogDef>, news: seq<LogDef>)
    requires IsSet(olds) && IsSet(news)
    ensures NothingMissed(olds, news) <==>
            forall m: Manager, name :: Lookup(OnChange(m, olds, news), name) == Promised(m, olds, news, name)
  {
    if NothingMissed(olds, news) {
      forall m: Manager, name ensures Lookup(OnChange(m, olds, news), name) == Promised(m, olds, news, name) {
        OnChangeExact(m, olds, news, name);
        KeptPromise(m, olds, news, name);
      }
    } else {
      var name := MissedName(olds, news);
      OnChangeExact(map[], olds, news, name);
    }
  }

  lemma KeptPromise(m: Manager, olds: seq<LogDef>, news: seq<LogDef>, name: string)
    requires IsSet(olds) && IsSet(news) && NothingMissed(olds, news)
    ensures Outcome(m, olds, news, name) == Promised(m, olds, news, name)
  {
    hide Configure, Silence, Less, Find;
    var k := FirstKept(olds, news);
    FindPrefix(news, k, name);
    FindNamed(news, name);
    FindNamed(news[..k], name);
    if Find(news[..k], name).Some? {
      assert Find(news[..k], name).value in news[..k];
    }
    if k == |news| {
      assert news[..k] == news;
    } else {
      assert Named(olds, name) ==> Named(news, name);
    }
  }

  /** A name whose change is skipped. */
  lemma MissedName(olds: seq<LogDef>, news: seq<LogDef>)
    returns (name: string)
    requires IsSet(olds) && IsSet(news) && !NothingMissed(olds, news)
    ensures Outcome(map[], olds, news, name) == None && Promised(map[], olds, news, name).Some?
  {
    hide Configure, Silence, Less, Find;
    var k := FirstKept(olds, news);
    if d :| d in news[k..] && d !in olds {
      name := d.name;
      var j :| k <= j < |news| && news[j] == d;
      assert d in news;
      FindIs(news, d);
      FindNamed(news[..k], name);
      forall e | e in news[..k] ensures e.name != name {
        var i :| 0 <= i < k && news[i] == e;
        LessTotal(news[i].name, news[j].name);
      }
    } else {
      var d :| d in olds && !Named(news, d.name);
      name := d.name;
      FindNamed(news, name);
      FindPrefix(news, k, name);
    }
  }

  // ---------- Removed loggers ----------

  /** A silenced logger delivers nothing at any level an event can have, not even
      through the root logger. */
  lemma SilencedDeliversNothing(l: Log<string>, root: Option<Log<string>>, level: Level)
    requires level <= FATAL
    ensures Delivered(Silence(l), root, level) == []
  {
  }

  /** The listener's runs over a history of configurations. */
  function OnHistory(m: Manager, history: seq<seq<LogDef>>): Manager
    decreases |history|
  {
    if |history| < 2 then m else OnHistory(OnChange(m, history[0], history[1]), history[1..])
  }

  predicate NeverNamed(history: seq<seq<LogDef>>, name: string) {
    forall i :: 0 <= i < |history| ==> IsSet(history[i]) && !Named(history[i], name)
  }

  /** A logger that no definition names any more is never touched again. */
  lemma {:induction false} UntouchedWhileUnnamed(m: Manager, history: seq<seq<LogDef>>, name: string)
    requires NeverNamed(history, name)
    ensures Lookup(OnHistory(m, history), name) == Lookup(m, name)
    decreases |history|
  {
    hide OnChange, Configure, Silence;
    if |history| >= 2 {
      var olds, news := history[0], history[1];
      OnChangeExact(m, olds, news, name);
      FindNamed(news, name);
      FindPrefix(news, FirstKept(olds, news), name);
      UntouchedWhileUnnamed(OnChange(m, olds, news), history[1..], name);
    }
  }

  /** A definition removed by a change that keeps nothing silences its logger, and
      silent it stays until some definition names it again. */
  lemma RemovedStaysSilent(m: Manager, olds: seq<LogDef>, history: seq<seq<LogDef>>, name: string,
                           root: Option<Log<string>>, level: Level)
    requires IsSet(olds) && Named(olds, name) && history != [] && NeverNamed(history, name)
    requires FirstKept(olds, history[0]) == |history[0]| && level <= FATAL
    ensures var m' := OnHistory(OnChange(m, olds, history[0]), history);
            && name in m' && Delivered(m'[name], root, level) == []
            && m'[name].level == 100 && m'[name].apps == [] && m'[name].fmt == Get(m, name).fmt
  {
    hide OnChange, Configure, OnHistory;
    var news := history[0];
    OnChangeExact(m, olds, news, name);
    FindNamed(news, name);
    assert news[..|news|] == news;
    UntouchedWhileUnnamed(OnChange(m, olds, news), history, name);
    SilencedDeliversNothing(Get(m, name), root, level);
  }

  /** But where some definition was kept, the removed logger goes on as before, and
      no later change that does not name it will ever silence it. */
  lemma MissedRemovalStays(m: Manager, olds: seq<LogDef>, history: seq<seq<LogDef>>, name: string)
    requires IsSet(olds) && Named(olds, name) && history != [] && NeverNamed(history, name)
    requires FirstKept(olds, history[0]) < |history[0]|
    ensures Lookup(OnHistory(OnChange(m, olds, history[0]), history), name) == Lookup(m, name)
  {
    hide OnChange, Configure, Silence, OnHistory;
    var news := history[0];
    OnChangeExact(m, olds, news, name);
    FindNamed(news, name);
    FindPrefix(news, FirstKept(olds, news), name);
    UntouchedWhileUnnamed(OnChange(m, olds, news), history, name);
  }

  // ---------- Configured loggers ----------

  /** What a definition makes of a logger, whatever it was: its level, its
      formatter unless the definition has none, and exactly the defined appenders
      in order, each with its own formatter or the logger's, and from level 1,
      debug, on where the definition leaves the level unknown, 0. */
  lemma ConfigureIs(l: Log<string>, d: LogDef)
    ensures var r := Configure(l, d);
            && r.level == d.level
            && r.fmt == (if d.formatter != "" then d.formatter else l.fmt)
            && |r.apps| == |d.appenders|
            && forall i :: 0 <= i < |r.apps| ==>
                 var a := d.appenders[i];
                 && r.apps[i].kind == a.kind && r.apps[i].own == (a.formatter != "")
                 && r.apps[i].level == (if a.level != 0 then a.level else 1)
                 && r.apps[i].file == (if a.kind == 1 then a.file else "")
                 && r.apps[i].fmt == Some(if a.formatter != "" then a.formatter else r.fmt)
    ensures Inherits(Configure(l, d))
  {
    hide AddAll, Inherit;
    var l1 := l.(level := d.level);
    var l2 := if d.formatter != "" then SetFormatter(l1, d.formatter) else l1;
    AddAllIs(l2.(apps := []), d.appenders);
    var r := Configure(l, d);
    forall i | 0 <= i < |d.appenders|
      ensures r.apps[i] == BuildAppender(d.appenders[i]).(
                             fmt := Some(if d.appenders[i].formatter != "" then d.appenders[i].formatter else l2.fmt))
    {
      assert r.apps[|l2.(apps := []).apps| + i] == r.apps[i];
    }
  }

  lemma {:induction false} AddAllIs(l: Log<string>, defs: seq<AppDef>)
    ensures var r := AddAll(l, defs);
            && r.level == l.level && r.fmt == l.fmt && |r.apps| == |l.apps| + |defs|
            && (forall i :: 0 <= i < |l.apps| ==> r.apps[i] == l.apps[i])
            && forall i :: 0 <= i < |defs| ==>
                 r.apps[|l.apps| + i] ==
                 BuildAppender(defs[i]).(fmt := Some(if defs[i].formatter != "" then defs[i].formatter else l.fmt))
    decreases |defs|
  {
    if defs == [] {
    } else {
      var l' := AddAppender(l, BuildAppender(defs[0]));
      AddAllIs(l', defs[1..]);
      var r := AddAll(l, defs);
      assert r.apps[|l.apps|] == l'.apps[|l.apps|];
      forall i | 1 <= i < |defs|
        ensures r.apps[|l.apps| + i] ==
                  BuildAppender(defs[i]).(fmt := Some(if defs[i].formatter != "" then defs[i].formatter else l.fmt))
      {
        assert defs[1..][i - 1] == defs[i];
      }
    }
  }
}

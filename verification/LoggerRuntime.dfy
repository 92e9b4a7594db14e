/** Loggers and appenders as the objects that src/log.cpp updates in place. */
module LoggerRuntime {
  import opened Loggers
  import opened LogFormatting
  import Pattern
  import PatternGrammar
  import opened Options

  class LogAppender {
    const m_type: int
    const m_filename: string
    var m_level: Level
    var m_formatter: LogFormatter?
    var has_formatter: bool

    constructor (kind: int, filename: string)
      ensures View() == App(kind, filename, DEBUG, None, false) && m_formatter == null
    {
      m_type, m_filename, m_level, m_formatter, has_formatter := kind, filename, DEBUG, null, false;
    }

    function View(): App<string> reads this {
      App(m_type, m_filename, m_level, if m_formatter == null then None else Some(m_formatter.m_pattern), has_formatter)
    }

    /** From a formatter object: still counted as having none of its own. */
    method SetFormatterObject(f: LogFormatter)
      modifies this`m_formatter
      ensures m_formatter == f
    {
      m_formatter := f;
    }

    /** From a string: its own from now on. */
    method SetFormatterString(pattern: string)
      modifies this`m_formatter, this`has_formatter
      ensures fresh(m_formatter) && m_formatter.m_pattern == pattern && m_formatter.Valid() && has_formatter
    {
      m_formatter := new LogFormatter(pattern);
      has_formatter := true;
    }
  }

  class Logger {
    const m_name: string
    var m_level: Level
    var m_appenders: seq<LogAppender>
    var m_formatter: LogFormatter
    var m_root: Logger?

    constructor (name: string)
      ensures m_name == name && View() == NEW_LOGGER && m_appenders == [] && m_root == null
      ensures fresh(m_formatter) && Compiled()
    {
      m_name, m_level, m_appenders, m_root := name, DEBUG, [], null;
      m_formatter := new LogFormatter(DEFAULT_PATTERN);
    }

    function View(): Log<string> reads this, m_appenders {
      Log(m_level, m_formatter.m_pattern,
          seq(|m_appenders|, i requires 0 <= i < |m_appenders| reads this, m_appenders => m_appenders[i].View()))
    }

    /** No appender is attached twice. */
    ghost predicate Valid() reads this { NoRepeat(m_appenders) }

    /** An attached appender has a formatter: its own, or this very logger's. */
    ghost predicate Inheriting() reads this, m_appenders {
      forall i :: 0 <= i < |m_appenders| ==>
        if m_appenders[i].has_formatter then m_appenders[i].m_formatter != null
        else m_appenders[i].m_formatter == m_formatter
    }

    /** Every attached appender has a compiled formatter. */
    ghost predicate Ready()
      reads this, m_appenders, set a | a in m_appenders && a.m_formatter != null :: a.m_formatter
    {
      forall a :: a in m_appenders ==> a.m_formatter != null && a.m_formatter.Valid()
    }

    /** And so has the logger. */
    ghost predicate Compiled()
      reads this, m_appenders, m_formatter, set a | a in m_appenders && a.m_formatter != null :: a.m_formatter
    {
      m_formatter.Valid() && Ready()
    }

    /** An appender attached before may be attached again. */
    method AddAppender(a: LogAppender)
      modifies this`m_appenders, a`m_formatter
      ensures m_appenders == old(m_appenders) + [a]
      ensures a.m_formatter == if old(a.m_formatter) == null then m_formatter else old(a.m_formatter)
      ensures a !in old(m_appenders) || old(a.m_formatter) != null ==>
                View() == Loggers.AddAppender(old(View()), old(a.View()))
      ensures old(Valid()) && a !in old(m_appenders) ==> Valid()
      ensures
        && old(Inheriting())
        && (old(a.m_formatter) != null <==> a.has_formatter || a in old(m_appenders))
        ==> Inheriting()
      ensures old(Compiled()) && (old(a.m_formatter) != null ==> old(a.m_formatter.Valid())) ==> Compiled()
    {
      if a.m_formatter == null {
        a.SetFormatterObject(m_formatter);
      }
      m_appenders := m_appenders + [a];
    }

    /** The appender the root logger starts with. */
    method AddConsole()
      requires Valid() && m_appenders == []
      modifies this`m_appenders
      ensures Valid() && View() == Loggers.AddAppender(old(View()), App(STDOUT_APPENDER, "", DEBUG, None, false))
      ensures old(Compiled()) ==> Compiled()
    {
      var console := new LogAppender(STDOUT_APPENDER, "");
      AddAppender(console);
    }

    /** std::list::remove: every occurrence goes, and the others, which were at the
        places `at`, stay in order. */
    method DelAppender(a: LogAppender) returns (ghost at: seq<nat>)
      modifies this`m_appenders
      ensures Others(m_appenders, at, old(m_appenders), a)
      ensures m_appenders == Without(old(m_appenders), a) && a !in m_appenders
      ensures old(Inheriting()) ==> Inheriting()
      ensures old(Compiled()) ==> Compiled()
      ensures old(Valid()) ==> Valid()
      ensures old(Valid()) ==> forall i :: 0 <= i < |old(m_appenders)| && old(m_appenders)[i] == a ==>
                View() == ApplyOp(old(View()), LogOp.Remove(i))
    {
      ghost var was := m_appenders;
      hide Without, View, ApplyOp, Inheriting, Compiled, NoRepeat, Others;
      var kept;
      kept, at := Removed(m_appenders, a);
      m_appenders := kept;
      WithoutIs(was, a);
      StillWell();
      forall i | 0 <= i < |was| && was[i] == a && old(Valid()) ensures View() == ApplyOp(old(View()), LogOp.Remove(i)) {
        WithoutOnce(was, a, i);
        OneFewer(i);
      }
    }

    /** The logger has no appenders that it had not, and these are as they were. */
    twostate predicate NothingNew()
      reads *
    {
      && m_level == old(m_level) && m_formatter == old(m_formatter) && unchanged(m_formatter)
      && forall a :: a in m_appenders ==>
           a in old(m_appenders) && unchanged(a) && (a.m_formatter != null ==> unchanged(a.m_formatter))
    }

    twostate lemma StillWell()
      requires NothingNew()
      ensures old(Inheriting()) ==> Inheriting()
      ensures old(Compiled()) ==> Compiled()
    {
      forall i | 0 <= i < |m_appenders|
        ensures exists j :: 0 <= j < |old(m_appenders)| && old(m_appenders)[j] == m_appenders[i]
      {
        assert m_appenders[i] in m_appenders;
      }
    }

    twostate lemma OneFewer(i: nat)
      requires i < |old(m_appenders)| && m_appenders == old(m_appenders[..i] + m_appenders[i + 1..]) && NothingNew()
      ensures View() == ApplyOp(old(View()), LogOp.Remove(i))
    {
      forall j | 0 <= j < |m_appenders|
        ensures m_appenders[j].View() == old(View()).apps[if j < i then j else j + 1]
      {
        assert m_appenders[j] == old(m_appenders)[if j < i then j else j + 1];
      }
      assert View().apps == old(View()).apps[..i] + old(View()).apps[i + 1..];
    }

    method ClearAppender()
      modifies this`m_appenders
      ensures Valid() && Inheriting() && m_appenders == []
      ensures View() == old(View()).(apps := [])
      ensures m_formatter.Valid() ==> Compiled()
    {
      m_appenders := [];
    }

    method SetLevel(level: Level)
      modifies this`m_level
      ensures View() == old(View()).(level := level)
      ensures old(Inheriting()) ==> Inheriting()
      ensures old(Compiled()) ==> Compiled()
    {
      m_level := level;
    }

    method SetFormatterObject(val: LogFormatter)
      modifies this`m_formatter, m_appenders
      ensures m_formatter == val && m_appenders == old(m_appenders)
      ensures View() == SetFormatter(old(View()), val.m_pattern)
      ensures old(Inheriting()) ==> Inheriting()
      ensures forall a :: a in m_appenders ==>
                && a.m_level == old(a.m_level) && a.has_formatter == old(a.has_formatter)
                && a.m_formatter == if a.has_formatter then old(a.m_formatter) else val
      ensures old(Compiled()) && val.Valid() ==> Compiled()
    {
      m_formatter := val;
      for i := 0 to |m_appenders|
        invariant m_formatter == val
        invariant forall a :: a in m_appenders ==>
                    && a.m_level == old(a.m_level) && a.has_formatter == old(a.has_formatter)
                    && a.m_formatter == if a in m_appenders[..i] && !a.has_formatter then val else old(a.m_formatter)
      {
        assert m_appenders[..i + 1] == m_appenders[..i] + [m_appenders[i]];
        if !m_appenders[i].has_formatter {
          m_appenders[i].SetFormatterObject(val);
        }
      }
      assert m_appenders[..|m_appenders|] == m_appenders;
    }

    method SetFormatterString(val: string)
      modifies this`m_formatter, m_appenders
      ensures m_appenders == old(m_appenders)
      ensures fresh(m_formatter) && m_formatter.m_pattern == val && m_formatter.Valid()
      ensures View() == SetFormatter(old(View()), val)
      ensures old(Inheriting()) ==> Inheriting()
      ensures forall a :: a in m_appenders ==>
                && a.m_level == old(a.m_level) && a.has_formatter == old(a.has_formatter)
                && a.m_formatter == if a.has_formatter then old(a.m_formatter) else m_formatter
      ensures old(Compiled()) ==> Compiled()
    {
      var newVal := new LogFormatter(val);
      SetFormatterObject(newVal);
    }

    /** What is written, by which appender, each in its own format: below the
        logger's level nothing; else by the logger's appenders that let the level
        pass, in order, one text for each time an appender is attached; without
        appenders by the root logger's, under the same rule. `at` says where in the
        list the appenders are. */
    method LogEvent(level: Level, ev: Event) returns (out: seq<(LogAppender, string)>, ghost at: seq<nat>)
      requires Ready() && (m_root != null ==> m_root.Ready() && m_root.m_root == null)
      ensures out == [] ==> at == []
      ensures level < m_level ==> out == []
      ensures level >= m_level && m_appenders != [] ==> Picked(out, at, m_appenders, level)
      ensures level >= m_level && m_appenders == [] && m_root == null ==> out == []
      ensures level >= m_level && m_appenders == [] && m_root != null ==>
                if level < m_root.m_level then out == [] else Picked(out, at, m_root.m_appenders, level)
      ensures forall i :: 0 <= i < |out| ==>
                out[i].0.m_formatter != null && out[i].1 == Formatted(out[i].0.m_formatter.m_pattern, ev)
      ensures Views(out) == Delivered(View(), if m_root == null then None else Some(m_root.View()), level)
      decreases m_root != null
    {
      hide Picked, Formatted, Views, Passing;
      if level < m_level {
        out, at := [], [];
        NoViews();
      } else if m_appenders != [] {
        out, at := LogToAppenders(level, ev);
      } else if m_root != null {
        out, at := m_root.LogEvent(level, ev);
        if m_root.m_appenders == [] {
          NonePicked(level);
          PassingEnds(m_root.View().apps, level);
        }
      } else {
        out, at := [], [];
        NoViews();
      }
    }

    method LogToAppenders(level: Level, ev: Event) returns (out: seq<(LogAppender, string)>, ghost at: seq<nat>)
      requires Ready()
      ensures Picked(out, at, m_appenders, level) && |at| == |out|
      ensures forall i :: 0 <= i < |out| ==>
                out[i].0.m_formatter != null && out[i].1 == Formatted(out[i].0.m_formatter.m_pattern, ev)
      ensures Views(out) == Passing(View().apps, level)
    {
      hide Passing, Picked, Render, Pattern.Denote;
      out, at := [], [];
      ghost var apps := View().apps;
      PassingEnds(apps, level);
      NonePicked(level);
      assert m_appenders[..0] == [];
      for i := 0 to |m_appenders|
        invariant Picked(out, at, m_appenders[..i], level) && |at| == |out|
        invariant Views(out) + Passing(apps[i..], level) == Passing(apps, level)
        invariant forall j :: 0 <= j < |out| ==>
                    out[j].0.m_formatter != null && out[j].1 == Formatted(out[j].0.m_formatter.m_pattern, ev)
      {
        var app := m_appenders[i];
        PassingStep(apps, i, level);
        assert m_appenders[..i + 1] == m_appenders[..i] + [app];
        if level >= app.m_level {
          var text := app.m_formatter.Format(ev);
          PickedNext(out, at, m_appenders[..i], level, app, text);
          ghost var rest := Passing(apps[i + 1..], level);
          assert Views(out + [(app, text)]) == Views(out) + [app.View()];
          PatternGrammar.Assoc(Views(out), [app.View()], rest);
          out, at := out + [(app, text)], at + [i];
        } else {
          PickedNext(out, at, m_appenders[..i], level, app, "");
        }
      }
      assert m_appenders[..|m_appenders|] == m_appenders;
      assert apps[|m_appenders|..] == [];
      assert Views(out) + [] == Views(out);
    }

    /** The appender a definition describes. */
    static method BuildAppender(d: AppDef) returns (np: LogAppender)
      requires d.kind == FILE_APPENDER || d.kind == STDOUT_APPENDER
      ensures fresh(np) && np.View() == Loggers.BuildAppender(d)
      ensures if np.has_formatter then np.m_formatter != null && np.m_formatter.Valid() else np.m_formatter == null
    {
      np := new LogAppender(d.kind, if d.kind == FILE_APPENDER then d.file else "");
      if d.level != UNKNOWN {
        np.m_level := d.level;
      }
      if d.formatter != "" {
        np.SetFormatterString(d.formatter);
      }
    }

    /** The body of the listener's first loop, for a new or changed definition. */
    method Configure(v: LogDef)
      requires KnownKinds(v)
      modifies this`m_level, this`m_formatter, this`m_appenders, m_appenders
      ensures Valid() && Inheriting() && View() == Loggers.Configure(old(View()), v)
      ensures forall a :: a in m_appenders ==> fresh(a)
      ensures forall a :: a in old(m_appenders) ==> Reformatted(a)
      ensures old(m_formatter.Valid()) ==> Compiled()
    {
      SetLevel(v.level);
      if v.formatter != "" {
        SetFormatterString(v.formatter);
      }
      ClearAppender();
      AddDefined(v.appenders);
    }

    method AddDefined(defs: seq<AppDef>)
      requires m_appenders == []
      requires forall d :: d in defs ==> d.kind == FILE_APPENDER || d.kind == STDOUT_APPENDER
      modifies this`m_appenders
      ensures Valid() && Inheriting() && View() == AddAll(old(View()), defs)
      ensures forall a :: a in m_appenders ==> fresh(a)
      ensures m_formatter.Valid() ==> Compiled()
    {
      hide View, Compiled, Inheriting, AddAll;
      ghost var start := View();
      assert defs[0..] == defs;
      Untouched();
      for i := 0 to |defs|
        invariant Valid() && Inheriting() && forall a :: a in m_appenders ==> fresh(a)
        invariant m_formatter.Valid() ==> Compiled()
        invariant AddAll(View(), defs[i..]) == AddAll(start, defs)
      {
        assert defs[i] in defs;
        AddAllStep(View(), defs, i);
        AddOne(defs[i]);
      }
      AddAllEnds(View(), defs);
    }

    lemma Untouched()
      requires m_appenders == []
      ensures Valid() && Inheriting() && (m_formatter.Valid() ==> Compiled())
    {
    }

    method AddOne(d: AppDef)
      requires d.kind == FILE_APPENDER || d.kind == STDOUT_APPENDER
      modifies this`m_appenders
      ensures View() == Loggers.AddAppender(old(View()), Loggers.BuildAppender(d))
      ensures exists a :: fresh(a) && m_appenders == old(m_appenders) + [a]
      ensures old(Valid()) ==> Valid()
      ensures old(Inheriting()) ==> Inheriting()
      ensures old(Compiled()) ==> Compiled()
    {
      var np := BuildAppender(d);
      AddAppender(np);
    }

    /** A removed definition: a level above every event's, and no appenders. */
    method Silence()
      modifies this`m_level, this`m_appenders
      ensures Valid() && Inheriting() && View() == Loggers.Silence(old(View())) && m_appenders == []
      ensures m_formatter.Valid() ==> Compiled()
    {
      SetLevel(SILENT);
      ClearAppender();
    }
  }

  /** At most another formatter, where it has none of its own, and that one compiled. */
  twostate predicate Reformatted(a: LogAppender)
    reads a, if a.m_formatter == null then {} else {a.m_formatter}
  {
    && a.m_level == old(a.m_level) && a.has_formatter == old(a.has_formatter)
    && (a.m_formatter == old(a.m_formatter)
        || (!a.has_formatter && a.m_formatter != null && fresh(a.m_formatter) && a.m_formatter.Valid()))
  }

  lemma AddAllStep(l: Log<string>, defs: seq<AppDef>, i: nat)
    requires i < |defs|
    ensures AddAll(l, defs[i..]) == AddAll(Loggers.AddAppender(l, Loggers.BuildAppender(defs[i])), defs[i + 1..])
  {
    assert defs[i..][1..] == defs[i + 1..];
  }

  lemma AddAllEnds(l: Log<string>, defs: seq<AppDef>)
    ensures AddAll(l, defs[|defs|..]) == l
  {
  }

  predicate NoRepeat(l: seq<LogAppender>) {
    forall i, j :: 0 <= i < j < |l| ==> l[i] != l[j]
  }

  function Without(l: seq<LogAppender>, a: LogAppender): seq<LogAppender> {
    if l == [] then [] else Without(l[..|l| - 1], a) + if l[|l| - 1] == a then [] else [l[|l| - 1]]
  }

  /** `kept` is all of `l` but `a`, from the places `at`, in order. */
  predicate Others(kept: seq<LogAppender>, at: seq<nat>, l: seq<LogAppender>, a: LogAppender) {
    && |at| == |kept|
    && (forall j, k :: 0 <= j < k < |at| ==> at[j] < at[k])
    && (forall j :: 0 <= j < |at| ==> at[j] < |l| && kept[j] == l[at[j]])
    && forall i :: 0 <= i < |l| ==> (i in at <==> l[i] != a)
  }

  method Removed(l: seq<LogAppender>, a: LogAppender) returns (kept: seq<LogAppender>, ghost at: seq<nat>)
    ensures kept == Without(l, a) && Others(kept, at, l, a)
  {
    kept, at := [], [];
    for i := 0 to |l|
      invariant kept == Without(l[..i], a) && Others(kept, at, l[..i], a)
    {
      assert l[..i + 1][..i] == l[..i];
      if l[i] != a {
        kept, at := kept + [l[i]], at + [i];
      }
    }
    assert l[..|l|] == l;
  }

  /** What is left: everything else, in order, and no more often than before. */
  lemma {:induction false} WithoutIs(l: seq<LogAppender>, a: LogAppender)
    ensures forall b :: b in Without(l, a) <==> b in l && b != a
    ensures NoRepeat(l) ==> NoRepeat(Without(l, a))
  {
    if l == [] {
    } else {
      var init, last := l[..|l| - 1], l[|l| - 1];
      WithoutIs(init, a);
      assert l == init + [last];
      assert forall i :: 0 <= i < |init| ==> init[i] == l[i];
      assert NoRepeat(l) ==> last !in init;
    }
  }

  lemma {:induction false} WithoutNone(l: seq<LogAppender>, a: LogAppender)
    requires a !in l
    ensures Without(l, a) == l
  {
    if l == [] {
    } else {
      WithoutNone(l[..|l| - 1], a);
    }
  }

  lemma {:induction false} WithoutOnce(l: seq<LogAppender>, a: LogAppender, i: nat)
    requires i < |l| && l[i] == a && NoRepeat(l)
    ensures Without(l, a) == l[..i] + l[i + 1..]
  {
    var init := l[..|l| - 1];
    assert forall j :: 0 <= j < |init| ==> init[j] == l[j];
    if i == |init| {
      WithoutNone(init, a);
    } else {
      WithoutOnce(init, a, i);
      assert l[i + 1..] == init[i + 1..] + [l[|l| - 1]];
    }
  }

  /** `out` is written by exactly those of `apps` that let the level pass, at the
      places `at`, in order. */
  ghost predicate Picked(out: seq<(LogAppender, string)>, at: seq<nat>, apps: seq<LogAppender>, level: Level)
    reads apps
  {
    && |at| == |out|
    && (forall j, k :: 0 <= j < k < |at| ==> at[j] < at[k])
    && (forall j :: 0 <= j < |at| ==> at[j] < |apps| && out[j].0 == apps[at[j]])
    && forall i :: 0 <= i < |apps| ==> (i in at <==> level >= apps[i].m_level)
  }

  lemma NonePicked(level: Level)
    ensures Picked([], [], [], level)
  {
  }

  lemma PickedNext(out: seq<(LogAppender, string)>, at: seq<nat>, apps: seq<LogAppender>, level: Level,
                   app: LogAppender, text: string)
    requires Picked(out, at, apps, level)
    ensures if level >= app.m_level then Picked(out + [(app, text)], at + [|apps|], apps + [app], level)
            else Picked(out, at, apps + [app], level)
  {
    var more := apps + [app];
    assert forall i :: 0 <= i < |apps| ==> more[i] == apps[i];
    assert |apps| !in at;
  }

  lemma NoViews()
    ensures Views([]) == []
  {
  }

  lemma PassingEnds(apps: seq<App<string>>, level: Level)
    ensures Passing(apps[0..], level) == Passing(apps, level) && Passing<string>([], level) == []
  {
    assert apps[0..] == apps;
  }

  lemma PassingStep(apps: seq<App<string>>, i: nat, level: Level)
    requires i < |apps|
    ensures Passing(apps[i..], level) == if level >= apps[i].level then [apps[i]] + Passing(apps[i + 1..], level)
                                         else Passing(apps[i + 1..], level)
  {
    assert apps[i..][1..] == apps[i + 1..];
  }

  function Views(out: seq<(LogAppender, string)>): seq<App<string>>
    reads set i | 0 <= i < |out| :: out[i].0
  {
    seq(|out|, i requires 0 <= i < |out| reads set j | 0 <= j < |out| :: out[j].0 => out[i].0.View())
  }

  /** Appender kinds as the definition parser produces them. */
  predicate KnownKinds(v: LogDef) {
    forall d :: d in v.appenders ==> d.kind == FILE_APPENDER || d.kind == STDOUT_APPENDER
  }

  class LoggerManager {
    const m_root: Logger
    var m_loggers: map<string, Logger>

    constructor ()
      ensures Valid() && Tidy() && AllCompiled()
      ensures m_loggers == map[] && fresh(m_root) && m_root.m_name == "root" && m_root.m_root == null
      ensures m_root.View() == Loggers.AddAppender(NEW_LOGGER, App(STDOUT_APPENDER, "", DEBUG, None, false))
    {
      m_loggers := map[];
      var root := new Logger("root");
      m_root := root;
      root.AddConsole();
    }

    function View(): Manager
      reads this, m_loggers.Values, Appenders()
    {
      map n | n in m_loggers :: assert Owned(n); m_loggers[n].View()
    }

    /** A logger's appenders are among the manager's. */
    ghost predicate Owned(n: string)
      requires n in m_loggers
      reads this, m_loggers.Values
      ensures Owned(n)
    {
      assert forall a :: a in m_loggers[n].m_appenders ==> a in Appenders();
      forall a :: a in m_loggers[n].m_appenders ==> a in Appenders()
    }

    function Appenders(): set<LogAppender>
      reads this, m_loggers.Values
    {
      set n, a | n in m_loggers && a in m_loggers[n].m_appenders :: a
    }

    /** Loggers are kept under their names, and know the root logger. */
    ghost predicate Valid()
      reads this, m_loggers.Values, m_root
    {
      && m_root.m_root == null
      && forall n :: n in m_loggers ==>
           m_loggers[n].m_name == n && m_loggers[n] != m_root && m_loggers[n].m_root == m_root
    }

    /** No appender is attached to two loggers, or twice to one. */
    ghost predicate Tidy()
      reads this, m_loggers.Values, Appenders()
    {
      && (forall n :: n in m_loggers ==> Owned(n) && m_loggers[n].Valid() && m_loggers[n].Inheriting())
      && forall n, k :: n in m_loggers && k in m_loggers && n != k ==> Apart(n, k)
    }

    /** Every logger can log: its formatter, and those of its appenders, are compiled. */
    ghost predicate AllCompiled()
      reads *
    {
      m_root.Compiled() && forall n :: n in m_loggers ==> m_loggers[n].Compiled()
    }

    /** Two loggers share no appender. */
    ghost predicate Apart(n: string, k: string)
      requires n in m_loggers && k in m_loggers
      reads this, m_loggers.Values
    {
      forall a :: a in m_loggers[n].m_appenders ==> a !in m_loggers[k].m_appenders
    }

    // What a change of one logger leaves alone

    /** Every logger but the given one, and its appenders, are as they were. */
    twostate predicate Same(n: string)
      requires n in m_loggers && n in old(m_loggers)
      reads this, m_loggers[n], m_loggers[n].m_appenders
    {
      && m_loggers[n] == old(m_loggers[n]) && unchanged(m_loggers[n])
      && forall a :: a in m_loggers[n].m_appenders ==> unchanged(a)
    }

    /** The same but for what a logger that shares an appender does to it. */
    twostate predicate AlmostSame(n: string)
      requires n in m_loggers && n in old(m_loggers)
      reads *
    {
      && m_loggers[n] == old(m_loggers[n]) && unchanged(m_loggers[n])
      && forall a :: a in m_loggers[n].m_appenders ==> Reformatted(a)
    }

    twostate lemma SameView(n: string)
      requires n in m_loggers && n in old(m_loggers) && Same(n)
      ensures m_loggers[n].View() == old(m_loggers[n].View())
      ensures m_loggers[n].Valid() == old(m_loggers[n].Valid()) &&
                m_loggers[n].Inheriting() == old(m_loggers[n].Inheriting())
    {
      var l := m_loggers[n];
      forall i | 0 <= i < |l.m_appenders| ensures unchanged(l.m_appenders[i]) {
        assert l.m_appenders[i] in l.m_appenders;
      }
    }

    twostate lemma AlmostSameView(n: string)
      requires n in m_loggers && n in old(m_loggers) && AlmostSame(n)
      ensures Outline(m_loggers[n].View()) == Outline(old(m_loggers[n].View()))
    {
      var l := m_loggers[n];
      forall i | 0 <= i < |l.m_appenders| ensures Reformatted(l.m_appenders[i]) {
        assert l.m_appenders[i] in l.m_appenders;
      }
    }

    /** A new or changed logger in the map changes one entry of the view. */
    twostate lemma OneLogger(new l: Logger)
      requires old(Tidy()) && m_loggers == old(m_loggers)[l.m_name := l] && l.Valid() && l.Inheriting()
      requires forall n :: n in old(m_loggers) && n != l.m_name ==> Same(n)
      requires forall n, a :: n in old(m_loggers) && n != l.m_name && a in l.m_appenders ==>
                 a !in old(m_loggers[n].m_appenders)
      ensures Tidy()
    {
      hide Logger.Valid, Logger.Inheriting;
      forall n | n in old(m_loggers) && n != l.m_name
        ensures m_loggers[n].Valid() && m_loggers[n].Inheriting() &&
                  m_loggers[n].m_appenders == old(m_loggers[n].m_appenders)
      {
        SameView(n);
      }
    }

    twostate lemma OneLoggerView(new l: Logger)
      requires m_loggers == old(m_loggers)[l.m_name := l]
      requires forall n :: n in old(m_loggers) && n != l.m_name ==> Same(n)
      ensures View() == old(View())[l.m_name := l.View()]
    {
      hide Logger.View, Logger.Valid, Logger.Inheriting, Same;
      forall n | n in old(m_loggers) && n != l.m_name ensures m_loggers[n].View() == old(m_loggers[n].View()) {
        SameView(n);
      }
    }

    twostate lemma OneOutline(new l: Logger)
      requires m_loggers == old(m_loggers)[l.m_name := l]
      requires forall n :: n in old(m_loggers) && n != l.m_name ==> AlmostSame(n)
      ensures SameOutlines(View(), old(View())[l.m_name := l.View()])
    {
      hide Logger.View, Outline, AlmostSame;
      forall n | n in old(m_loggers) && n != l.m_name
        ensures Outline(m_loggers[n].View()) == Outline(old(m_loggers[n].View()))
      {
        AlmostSameView(n);
      }
    }

    /** Formatters are never changed once compiled: where appenders get another one,
        it is compiled too. */
    twostate predicate Kept(k: Logger)
      reads *
    {
      && unchanged(k) && (old(k.m_formatter.Valid()) ==> k.m_formatter.Valid())
      && forall a :: a in k.m_appenders ==>
           && Reformatted(a)
           && (old(a.m_formatter) != null && old(a.m_formatter.Valid()) ==> old(a.m_formatter).Valid())
    }

    twostate lemma StillCompiled(k: Logger)
      requires old(k.Compiled()) && Kept(k)
      ensures k.Compiled()
    {
    }

    twostate lemma OthersCompiled(new l: Logger)
      requires old(AllCompiled()) && m_loggers == old(m_loggers)[l.m_name := l] && l.Compiled() && Kept(m_root)
      requires forall n :: n in old(m_loggers) && n != l.m_name ==> Kept(m_loggers[n])
      ensures AllCompiled()
    {
      hide Kept, Logger.Compiled;
      StillCompiled(m_root);
      forall n | n in m_loggers && n != l.m_name ensures m_loggers[n].Compiled() {
        StillCompiled(m_loggers[n]);
      }
    }

    // Loggers by name

    method NewNamed(name: string) returns (l: Logger)
      ensures fresh(l) && l.m_name == name && l.m_root == m_root && l.View() == NEW_LOGGER && l.m_appenders == []
      ensures l.Valid() && l.Inheriting() && l.Compiled()
    {
      l := new Logger(name);
      l.m_root := m_root;
    }

    method GetLogger(name: string) returns (l: Logger)
      requires Valid()
      modifies this`m_loggers
      ensures Valid() && name in m_loggers && l == m_loggers[name]
      ensures name in old(m_loggers) ==> m_loggers == old(m_loggers)
      ensures name !in old(m_loggers) ==> fresh(l) && l.m_appenders == [] && m_loggers == old(m_loggers)[name := l]
      ensures View() == old(View())[name := Get(old(View()), name)] && Appenders() == old(Appenders())
      ensures old(Tidy()) ==> Tidy()
      ensures old(AllCompiled()) ==> AllCompiled()
    {
      hide View, Appenders, Logger.View, Tidy, AllCompiled, Kept, Same, Logger.Compiled, Logger.Valid,
          Logger.Inheriting;
      if name in m_loggers {
        l := m_loggers[name];
        Seen(name);
        assert View() == View()[name := View()[name]];
      } else {
        Unseen(name);
        l := AddNamed(name);
        OneLoggerView(l);
        if old(Tidy()) {
          OneLogger(l);
        }
        if old(AllCompiled()) {
          OthersCompiled(l);
        }
        NoNewAppenders(l);
      }
    }

    method AddNamed(name: string) returns (l: Logger)
      requires Valid() && name !in m_loggers
      modifies this`m_loggers
      ensures Valid() && fresh(l) && m_loggers == old(m_loggers)[name := l] && l.m_name == name
      ensures l.View() == NEW_LOGGER && l.m_appenders == [] && l.Valid() && l.Inheriting() && l.Compiled()
      ensures forall n :: n in old(m_loggers) ==> Same(n) && Kept(m_loggers[n])
      ensures Kept(m_root)
    {
      hide Logger.View, Logger.Compiled, Logger.Valid, Logger.Inheriting;
      l := NewNamed(name);
      m_loggers := m_loggers[name := l];
    }

    lemma Unseen(n: string)
      requires n !in m_loggers
      ensures n !in View()
    {
    }

    twostate lemma NoNewAppenders(new l: Logger)
      requires m_loggers == old(m_loggers)[l.m_name := l] && l.m_name !in old(m_loggers) && l.m_appenders == []
      requires forall n :: n in old(m_loggers) ==> Same(n)
      ensures Appenders() == old(Appenders())
    {
      forall n | n in old(m_loggers) ensures m_loggers[n].m_appenders == old(m_loggers[n].m_appenders) {
        assert Same(n);
      }
      forall a ensures a in Appenders() <==> a in old(Appenders()) {
        if a in Appenders() {
          var n :| n in m_loggers && a in m_loggers[n].m_appenders;
          assert n in old(m_loggers) && a in old(m_loggers[n].m_appenders);
        }
        if a in old(Appenders()) {
          var n :| n in old(m_loggers) && a in old(m_loggers[n].m_appenders);
          assert n in m_loggers && a in m_loggers[n].m_appenders;
        }
      }
    }

    /** What the view and the set of appenders say about one logger. */
    lemma Seen(n: string)
      requires n in m_loggers
      ensures n in View() && View()[n] == m_loggers[n].View()
      ensures forall a :: a in m_loggers[n].m_appenders ==> a in Appenders()
    {
    }

    /** What the listener may touch: the loggers and appenders there were, and
        those made since. */
    twostate predicate GrownFresh()
      reads this, m_loggers.Values
    {
      && (forall n :: n in m_loggers ==> m_loggers[n] in old(m_loggers.Values) || fresh(m_loggers[n]))
      && forall a :: a in Appenders() ==> a in old(Appenders()) || fresh(a)
    }

    lemma NameKept(n: string)
      requires Valid() && n in m_loggers
      ensures m_loggers[n].m_name == n
    {
    }

    /** Logging through a logger by name: whatever has been configured before, the
        logger's own appenders write what they let pass, or the root's if it has
        none. A name nobody has used logs through the root from level 1, debug, on. */
    method LogByName(name: string, level: Level, ev: Event)
      returns (out: seq<(LogAppender, string)>, ghost at: seq<nat>)
      requires Valid() && AllCompiled()
      modifies this`m_loggers
      ensures Valid() && AllCompiled() && View() == old(View())[name := Get(old(View()), name)]
      ensures name in m_loggers && (name in old(m_loggers) ==> m_loggers == old(m_loggers))
      ensures level < m_loggers[name].m_level ==> out == []
      ensures level >= m_loggers[name].m_level && m_loggers[name].m_appenders != [] ==>
                Picked(out, at, m_loggers[name].m_appenders, level)
      ensures level >= m_loggers[name].m_level && m_loggers[name].m_appenders == [] ==>
                if level < m_root.m_level then out == [] else Picked(out, at, m_root.m_appenders, level)
      ensures name !in old(m_loggers) ==> m_loggers[name].m_level == 1 && m_loggers[name].m_appenders == []
      ensures Views(out) == Delivered(Get(old(View()), name), Some(m_root.View()), level)
      ensures forall i :: 0 <= i < |out| ==>
                out[i].0.m_formatter != null && out[i].1 == Formatted(out[i].0.m_formatter.m_pattern, ev)
    {
      hide View, Logger.View, Delivered, Formatted, Valid, AllCompiled, Tidy, Logger.Ready, Views, Picked;
      var l := GetLogger(name);
      Seen(name);
      CanLog(name);
      if name !in old(m_loggers) {
        UnseenIs(name);
      }
      LevelSeen(l);
      out, at := l.LogEvent(level, ev);
    }

    twostate lemma UnseenIs(name: string)
      requires name !in old(m_loggers)
      ensures Get(old(View()), name) == NEW_LOGGER
    {
    }

    lemma LevelSeen(l: Logger)
      ensures l.View() == NEW_LOGGER ==> l.m_level == 1
    {
    }

    lemma CanLog(n: string)
      requires Valid() && AllCompiled() && n in m_loggers
      ensures m_loggers[n].Ready() && m_loggers[n].m_root == m_root && m_root.Ready() && m_root.m_root == null
    {
    }

    // The reaction to a change of definitions

    /** Exact where no appender is shared; where some are, exact but for the
        formatters of shared appenders in other loggers. */
    method ApplyDefinition(v: LogDef)
      requires Valid() && KnownKinds(v)
      modifies this`m_loggers, m_loggers.Values, Appenders()
      ensures Valid() && GrownFresh()
      ensures SameOutlines(View(), old(View())[v.name := Loggers.Configure(Get(old(View()), v.name), v)])
      ensures old(Tidy()) ==>
                Tidy() && View() == old(View())[v.name := Loggers.Configure(Get(old(View()), v.name), v)]
      ensures old(AllCompiled()) ==> AllCompiled()
    {
      hide View, Appenders, Valid, Tidy, AllCompiled, Logger.View, Loggers.Configure, SameOutlines;
      var logger := GetLogger(v.name);
      NameKept(v.name);
      Seen(v.name);
      ghost var m := View();
      ConfigureIn(logger, v);
      ghost var c := Loggers.Configure(Get(old(View()), v.name), v);
      assert m[v.name := c] == old(View())[v.name := c];
    }

    method ConfigureIn(l: Logger, v: LogDef)
      requires Valid() && l.m_name in m_loggers && m_loggers[l.m_name] == l && KnownKinds(v)
      modifies l`m_level, l`m_formatter, l`m_appenders, l.m_appenders
      ensures Valid() && forall a :: a in Appenders() ==> a in old(Appenders()) || fresh(a)
      ensures SameOutlines(View(), old(View())[l.m_name := Loggers.Configure(old(l.View()), v)])
      ensures old(Tidy()) ==>
                Tidy() && View() == old(View())[l.m_name := Loggers.Configure(old(l.View()), v)]
      ensures old(AllCompiled()) ==> AllCompiled()
    {
      ConfigureOnly(l, v);
      hide View, Logger.View, Logger.Compiled, SameOutlines, Tidy, AllCompiled, Kept, AlmostSame, Same, Valid,
          Appenders, Loggers.Configure;
      OneOutline(l);
      if old(Tidy()) {
        OneLoggerView(l);
        OneLogger(l);
      }
      if old(AllCompiled()) {
        OthersCompiled(l);
      }
    }

    /** What the change of one logger's object means for the others. */
    method ConfigureOnly(l: Logger, v: LogDef)
      requires Valid() && l.m_name in m_loggers && m_loggers[l.m_name] == l && KnownKinds(v)
      modifies l`m_level, l`m_formatter, l`m_appenders, l.m_appenders
      ensures Valid() && m_loggers == old(m_loggers)[l.m_name := l]
      ensures l.View() == Loggers.Configure(old(l.View()), v) && l.Valid() && l.Inheriting()
      ensures forall a :: a in l.m_appenders ==> fresh(a)
      ensures forall a :: a in Appenders() ==> a in old(Appenders()) || fresh(a)
      ensures forall n :: n in old(m_loggers) && n != l.m_name ==> AlmostSame(n) && Kept(m_loggers[n])
      ensures Kept(m_root)
      ensures forall n :: n in old(m_loggers) && n != l.m_name && old(Apart(n, l.m_name)) ==> Same(n)
      ensures old(l.m_formatter.Valid()) ==> l.Compiled()
    {
      hide Logger.View, Logger.Compiled, Loggers.Configure, Logger.Valid, Logger.Inheriting;
      l.Configure(v);
      assert m_loggers == m_loggers[l.m_name := l];
    }

    method RemoveDefinition(v: LogDef)
      requires Valid()
      modifies this`m_loggers, m_loggers.Values
      ensures Valid() && GrownFresh() && Appenders() <= old(Appenders())
      ensures View() == old(View())[v.name := Loggers.Silence(Get(old(View()), v.name))]
      ensures old(Tidy()) ==> Tidy()
      ensures old(AllCompiled()) ==> AllCompiled()
    {
      hide View, Appenders, Valid, Tidy, AllCompiled, Logger.View;
      var logger := GetLogger(v.name);
      NameKept(v.name);
      Seen(v.name);
      SilenceIn(logger);
    }

    method SilenceIn(l: Logger)
      requires Valid() && l.m_name in m_loggers && m_loggers[l.m_name] == l
      modifies l`m_level, l`m_appenders
      ensures Valid() && Appenders() <= old(Appenders())
      ensures View() == old(View())[l.m_name := Loggers.Silence(old(l.View()))]
      ensures old(Tidy()) ==> Tidy()
      ensures old(AllCompiled()) ==> AllCompiled()
    {
      SilenceOnly(l);
      hide View, Logger.View, Logger.Compiled, Tidy, AllCompiled, Kept, Same, Valid, Appenders;
      OneLoggerView(l);
      if old(Tidy()) {
        OneLogger(l);
      }
      if old(AllCompiled()) {
        OthersCompiled(l);
      }
    }

    method SilenceOnly(l: Logger)
      requires Valid() && l.m_name in m_loggers && m_loggers[l.m_name] == l
      modifies l`m_level, l`m_appenders
      ensures Valid() && Appenders() <= old(Appenders()) && m_loggers == old(m_loggers)[l.m_name := l]
      ensures l.View() == Loggers.Silence(old(l.View())) && l.Valid() && l.Inheriting() && l.m_appenders == []
      ensures forall n :: n in old(m_loggers) && n != l.m_name ==> Same(n) && Kept(m_loggers[n])
      ensures Kept(m_root)
      ensures old(l.m_formatter.Valid()) ==> l.Compiled()
    {
      hide Logger.View, Logger.Compiled, Logger.Valid, Logger.Inheriting;
      l.Silence();
      assert m_loggers == m_loggers[l.m_name := l];
    }

    /** The listener of the "logs" variable, with the lines it logs to the root
        logger. It returns from the whole reaction at the first definition that is
        carried over unchanged. Its effect is the specified one where no appender is
        shared, and else up to the formatters of shared appenders. */
    method OnLogsChanged(olds: seq<LogDef>, news: seq<LogDef>) returns (notices: seq<Notice>)
      requires Valid() && forall v :: v in news ==> KnownKinds(v)
      modifies this`m_loggers, m_loggers.Values, Appenders()
      ensures Valid() && SameOutlines(View(), OnChange(old(View()), olds, news))
      ensures old(Tidy()) ==> Tidy() && View() == OnChange(old(View()), olds, news)
      ensures old(AllCompiled()) ==> AllCompiled()
      ensures IsSet(olds) ==> notices == Notices(olds, news)
    {
      hide View, Appenders, Valid, Tidy, AllCompiled, IsSet, FirstKept, NoticeOf, ApplyNew, RemoveOld, SameOutlines;
      var all;
      all, notices := ApplyAll(olds, news);
      if all {
        ghost var m := View();
        var lines := RemoveAll(olds, news);
        notices := notices + lines;
      } else {
        assert notices + [] == notices;
      }
    }

    /** The listener's first loop; `all` if it got to its end. */
    method ApplyAll(olds: seq<LogDef>, news: seq<LogDef>) returns (all: bool, notices: seq<Notice>)
      requires Valid() && forall v :: v in news ==> KnownKinds(v)
      modifies this`m_loggers, m_loggers.Values, Appenders()
      ensures Valid() && GrownFresh()
      ensures SameOutlines(if all then RemoveOld(View(), olds, news, 0) else View(),
                ApplyNew(old(View()), olds, news, 0))
      ensures old(Tidy()) ==>
                && Tidy()
                && ApplyNew(old(View()), olds, news, 0) == if all then RemoveOld(View(), olds, news, 0) else View()
      ensures old(AllCompiled()) ==> AllCompiled()
      ensures IsSet(olds) ==> (all <==> FirstKept(olds, news) == |news|)
      ensures IsSet(olds) ==>
                notices == seq(FirstKept(olds, news),
                    i requires 0 <= i < FirstKept(olds, news) => NoticeOf(olds, news[i]))
    {
      hide View, Appenders, Valid, Tidy, AllCompiled, Loggers.Configure, IsSet, FirstKept, NoticeOf, Find, RemoveOld,
           SameOutlines, ApplyNew;
      notices := [];
      ghost var m0 := View();
      SameAsItself(ApplyNew(m0, olds, news, 0));
      for i := 0 to |news|
        invariant Valid() && GrownFresh()
        invariant SameOutlines(ApplyNew(View(), olds, news, i), ApplyNew(m0, olds, news, 0))
        invariant old(Tidy()) ==> Tidy() && ApplyNew(View(), olds, news, i) == ApplyNew(m0, olds, news, 0)
        invariant old(AllCompiled()) ==> AllCompiled()
        invariant IsSet(olds) ==> i <= FirstKept(olds, news)
        invariant notices == seq(i, j requires 0 <= j < i => NoticeOf(olds, news[j]))
      {
        assert news[i] in news;
        if IsSet(olds) {
          KeptHere(olds, news, i);
        }
        ghost var m := View();
        ApplyNewStep(m, olds, news, i);
        var line := ApplyNext(olds, news[i]);
        if line.None? {
          return false, notices;
        }
        ghost var m' := m[news[i].name := Loggers.Configure(Get(m, news[i].name), news[i])];
        ApplyOutlines(View(), m', olds, news, i + 1);
        OutlinesChain(ApplyNew(View(), olds, news, i + 1), ApplyNew(m', olds, news, i + 1),
            ApplyNew(m0, olds, news, 0));
        notices := notices + [line.value];
      }
      ApplyNewEnds(View(), olds, news);
      all := true;
    }

    /** Its second loop. */
    method RemoveAll(olds: seq<LogDef>, news: seq<LogDef>) returns (lines: seq<Notice>)
      requires Valid()
      modifies this`m_loggers, m_loggers.Values
      ensures Valid() && View() == RemoveOld(old(View()), olds, news, 0)
      ensures old(Tidy()) ==> Tidy()
      ensures old(AllCompiled()) ==> AllCompiled()
      ensures lines == Gone(olds, news)
    {
      hide View, Appenders, Valid, Tidy, AllCompiled, Gone, Find;
      lines := [];
      assert olds[..0] == [];
      GoneNone(news);
      for i := 0 to |olds|
        invariant Valid() && GrownFresh()
        invariant old(Tidy()) ==> Tidy()
        invariant old(AllCompiled()) ==> AllCompiled()
        invariant RemoveOld(View(), olds, news, i) == RemoveOld(old(View()), olds, news, 0)
        invariant lines == Gone(olds[..i], news)
      {
        GoneStep(olds, news, i);
        if Find(news, olds[i].name).None? {
          lines := lines + [Deleted(olds[i].name)];
          RemoveDefinition(olds[i]);
        } else {
          assert lines + [] == lines;
        }
      }
      assert olds[..|olds|] == olds;
    }

    /** One round of the listener's first loop: nothing and no line for a definition
        carried over unchanged. */
    method ApplyNext(olds: seq<LogDef>, v: LogDef) returns (line: Option<Notice>)
      requires Valid() && KnownKinds(v)
      modifies this`m_loggers, m_loggers.Values, Appenders()
      ensures Valid() && GrownFresh()
      ensures line.None? <==> Find(olds, v.name) == Some(v)
      ensures line.Some? ==> line.value == NoticeOf(olds, v)
      ensures line.None? ==> View() == old(View()) && m_loggers == old(m_loggers) && (old(Tidy()) ==> Tidy())
      ensures line.Some? ==>
                && SameOutlines(View(), old(View())[v.name := Loggers.Configure(Get(old(View()), v.name), v)])
                && (old(Tidy()) ==>
                      Tidy() && View() == old(View())[v.name := Loggers.Configure(Get(old(View()), v.name), v)])
      ensures old(AllCompiled()) ==> AllCompiled()
    {
      hide View, Appenders, Valid, Tidy, AllCompiled, Loggers.Configure, Find, SameOutlines;
      var it := Find(olds, v.name);
      if it.None? {
        line := Some(Added(v.name));
      } else if it.value != v {
        line := Some(Modified(v.name));
      } else {
        return None;
      }
      ApplyDefinition(v);
    }
  }

  lemma ApplyNewStep(m: Manager, olds: seq<LogDef>, news: seq<LogDef>, i: nat)
    requires i < |news|
    ensures ApplyNew(m, olds, news, i) ==
            if Find(olds, news[i].name) == Some(news[i]) then m
            else ApplyNew(m[news[i].name := Loggers.Configure(Get(m, news[i].name), news[i])], olds, news, i + 1)
  {
  }

  lemma ApplyNewEnds(m: Manager, olds: seq<LogDef>, news: seq<LogDef>)
    ensures ApplyNew(m, olds, news, |news|) == RemoveOld(m, olds, news, 0)
  {
  }

  lemma SameAsItself(m: Manager)
    ensures SameOutlines(m, m)
  {
  }

  lemma OutlinesChain(a: Manager, b: Manager, c: Manager)
    requires SameOutlines(a, b) && SameOutlines(b, c)
    ensures SameOutlines(a, c)
  {
  }

  lemma GoneNone(news: seq<LogDef>)
    ensures Gone([], news) == []
  {
  }

  lemma GoneStep(olds: seq<LogDef>, news: seq<LogDef>, i: nat)
    requires i < |olds|
    ensures Gone(olds[..i + 1], news) ==
            Gone(olds[..i], news) + if Find(news, olds[i].name).None? then [Deleted(olds[i].name)] else []
  {
    assert olds[..i + 1][..i] == olds[..i];
  }

  /** Where the first definition carried over is, seen from the i-th on. */
  lemma KeptHere(olds: seq<LogDef>, news: seq<LogDef>, i: nat)
    requires IsSet(olds) && i < |news| && i <= FirstKept(olds, news)
    ensures if Find(olds, news[i].name) == Some(news[i]) then FirstKept(olds, news) == i
            else i + 1 <= FirstKept(olds, news)
  {
    FindKept(olds, news[i]);
  }
}

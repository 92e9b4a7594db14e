/** What each call of the library does, operation by operation: which locks it
    takes, which shared data it uses under them, and which other calls it makes
    on the way, in the order of the source. */
module LockTraces {
  import opened LockOrder
  import opened LockRuns
  import opened Options

  function Flat<T>(parts: seq<seq<T>>): seq<T> {
    if parts == [] then [] else parts[0] + Flat(parts[1..])
  }

  // ---------- Traces of lists of blocks ----------

  lemma {:induction false} TraceConcat(a: seq<Block>, b: seq<Block>)
    ensures Trace(a + b) == Trace(a) + Trace(b)
  {
    if a == [] {
      assert a + b == b;
    } else {
      assert (a + b)[1..] == a[1..] + b;
      TraceConcat(a[1..], b);
    }
  }

  lemma {:induction false} TraceJoin(parts: seq<seq<Block>>, traces: seq<seq<Instr>>)
    requires |traces| == |parts| && forall i :: 0 <= i < |parts| ==> traces[i] == Trace(parts[i])
    ensures Trace(Join(parts)) == Flat(traces)
  {
    if parts == [] {
    } else {
      TraceJoin(parts[1..], traces[1..]);
      TraceConcat(parts[0], Join(parts[1..]));
    }
  }

  predicate OnlyUses(us: seq<Block>) {
    forall i :: 0 <= i < |us| ==> us[i].Use?
  }

  function Uses(us: seq<Block>): seq<Instr>
    requires OnlyUses(us)
  {
    seq(|us|, i requires 0 <= i < |us| => Access(us[i].datum, us[i].write))
  }

  /** A list of uses without locks of their own. */
  lemma {:induction false} TraceOfUses(us: seq<Block>)
    requires OnlyUses(us)
    ensures Trace(us) == Uses(us)
  {
    if us == [] {
    } else {
      TraceOfUses(us[1..]);
      assert Uses(us) == [Access(us[0].datum, us[0].write)] + Uses(us[1..]);
    }
  }

  /** A lock around a list of uses. */
  lemma TraceUnder(l: Lock, m: Mode, us: seq<Block>)
    requires OnlyUses(us)
    ensures Trace([Region(l, m, us)]) == [Acquire(l, m)] + Uses(us) + [Release(l)]
  {
    hide Trace, Uses;
    TraceOfUses(us);
    TraceRegion(l, m, us);
  }

  lemma {:induction false} ProgramConcat(a: seq<Call>, b: seq<Call>)
    ensures Program(a + b) == Program(a) + Program(b)
  {
    hide Trace, Blocks;
    if a == [] {
      assert a + b == b;
    } else {
      assert (a + b)[1..] == a[1..] + b;
      ProgramConcat(a[1..], b);
    }
  }

  lemma {:induction false} ProgramFlat(callLists: seq<seq<Call>>, traces: seq<seq<Instr>>)
    requires |traces| == |callLists| && forall i :: 0 <= i < |traces| ==> traces[i] == Program(callLists[i])
    ensures Program(Flat(callLists)) == Flat(traces)
  {
    hide Program;
    if traces == [] {
      NoCalls();
    } else {
      ProgramFlat(callLists[1..], traces[1..]);
      ProgramConcat(callLists[0], Flat(callLists[1..]));
    }
  }

  lemma NoCalls()
    ensures Program([]) == []
  {
  }

  lemma TwoCalls(a: Call, b: Call)
    ensures Program([a, b]) == Trace(Blocks(a)) + Trace(Blocks(b))
  {
    hide Trace, Blocks;
    OneCall(a);
    OneCall(b);
    ProgramConcat([a], [b]);
    assert [a] + [b] == [a, b];
  }

  // ---------- Calls on one variable ----------

  function Calling(c: Call): seq<Instr> { Trace(Blocks(c)) }

  lemma GetValueTrace(v: string)
    ensures Calling(CallGetValue(v)) == [Acquire(Variable(v), Shared), Access(Value(v), false), Release(Variable(v))]
  {
    hide Trace;
    TraceUnder(Variable(v), Shared, [Read(Value(v))]);
  }

  lemma ListenersTrace(v: string, typeName: string)
    ensures Calling(CallAddListener(v, typeName)) ==
            [Acquire(Variable(v), Exclusive), Access(NextKey(typeName), false), Access(Listeners(v), true),
             Access(NextKey(typeName), true), Release(Variable(v))]
    ensures Calling(CallDropListeners(v)) ==
            [Acquire(Variable(v), Exclusive), Access(Listeners(v), true), Release(Variable(v))]
    ensures Calling(CallGetListener(v)) ==
            [Acquire(Variable(v), Shared), Access(Listeners(v), false), Release(Variable(v))]
  {
    hide Trace;
    TraceUnder(Variable(v), Exclusive, [Read(NextKey(typeName)), Write(Listeners(v)), Write(NextKey(typeName))]);
    TraceUnder(Variable(v), Exclusive, [Write(Listeners(v))]);
    TraceUnder(Variable(v), Shared, [Read(Listeners(v))]);
  }

  // ---------- Calls on loggers ----------

  lemma SimpleTraces(g: Logger, a: nat)
    ensures Calling(CallOnLoggers(CallGetLogger)) ==
            [Acquire(Manager, Exclusive), Access(Loggers, false), Access(Loggers, true), Release(Manager)]
    ensures Calling(CallOnLoggers(CallSetLevel(g))) == [Access(Level(g), true)]
    ensures Calling(CallOnLoggers(CallGetFormatter(g))) == [Access(Formatter(g), false)]
    ensures Calling(CallOnLoggers(CallSetThreshold(a))) == [Access(Threshold(a), true)]
    ensures Calling(CallOnLoggers(CallDropAppenders(g))) ==
            [Acquire(LoggerLock(g), Exclusive), Access(Attached(g), true), Release(LoggerLock(g))]
    ensures Calling(CallOnLoggers(CallSetOwnLayout(a))) ==
            [Acquire(Appender(a), Exclusive), Access(Layout(a), true), Access(OwnFlag(a), true), Release(Appender(a))]
  {
    hide Trace;
    TraceUnder(Manager, Exclusive, [Read(Loggers), Write(Loggers)]);
    TraceUnder(LoggerLock(g), Exclusive, [Write(Attached(g))]);
    TraceUnder(Appender(a), Exclusive, [Write(Layout(a)), Write(OwnFlag(a))]);
    TraceOfUses([Write(Level(g))]);
    TraceOfUses([Read(Formatter(g))]);
    TraceOfUses([Write(Threshold(a))]);
  }

  lemma AddAppenderTrace(g: Logger, a: nat, inherits: bool)
    ensures Calling(CallOnLoggers(CallAddAppender(g, a, inherits))) ==
            [Acquire(LoggerLock(g), Exclusive), Access(Attached(g), false),
             Acquire(Appender(a), Exclusive), Access(Layout(a), false), Release(Appender(a))]
            + (if inherits
               then [Access(Formatter(g), false),
                     Acquire(Appender(a), Exclusive), Access(Layout(a), true), Release(Appender(a))]
               else [])
            + [Access(Attached(g), true), Release(LoggerLock(g))]
  {
    hide Trace;
    var middle := if inherits then [Read(Formatter(g)), WriteLayout(a)] else [];
    LayoutTraces(a);
    TraceOfUses([Read(Attached(g))]);
    TraceOfUses([Read(Formatter(g))]);
    TraceOfUses([Write(Attached(g))]);
    TraceConcat([Read(Attached(g))], [ReadLayout(a)]);
    TraceConcat([Read(Formatter(g))], [WriteLayout(a)]);
    assert [Read(Attached(g))] + [ReadLayout(a)] == [Read(Attached(g)), ReadLayout(a)];
    assert [Read(Formatter(g))] + [WriteLayout(a)] == [Read(Formatter(g)), WriteLayout(a)];
    TraceConcat([Read(Attached(g)), ReadLayout(a)], middle);
    TraceConcat([Read(Attached(g)), ReadLayout(a)] + middle, [Write(Attached(g))]);
    TraceOfUses([]);
    TraceRegion(LoggerLock(g), Exclusive, [Read(Attached(g)), ReadLayout(a)] + middle + [Write(Attached(g))]);
  }

  lemma LayoutTraces(a: nat)
    ensures Trace([ReadLayout(a)]) ==
            [Acquire(Appender(a), Exclusive), Access(Layout(a), false), Release(Appender(a))]
    ensures Trace([WriteLayout(a)]) ==
            [Acquire(Appender(a), Exclusive), Access(Layout(a), true), Release(Appender(a))]
  {
    hide Trace;
    TraceUnder(Appender(a), Exclusive, [Read(Layout(a))]);
    TraceUnder(Appender(a), Exclusive, [Write(Layout(a))]);
  }

  /** A logger's lock around looking at its appenders and more. */
  lemma TraceOnLogger(g: Logger, body: seq<Block>)
    ensures Trace([Region(LoggerLock(g), Exclusive, [Read(Attached(g))] + body)]) ==
            [Acquire(LoggerLock(g), Exclusive), Access(Attached(g), false)] + Trace(body) + [Release(LoggerLock(g))]
  {
    hide Trace;
    TraceRegion(LoggerLock(g), Exclusive, [Read(Attached(g))] + body);
    TraceConcat([Read(Attached(g))], body);
    TraceOfUses([Read(Attached(g))]);
  }

  /** The new formatter goes to every attached appender without one of its own,
      in order, and then to the logger. */
  lemma SetFormatterTrace(g: Logger, ts: seq<Attachment>)
    returns (parts: seq<seq<Instr>>)
    ensures |parts| == |ts|
    ensures forall i :: 0 <= i < |ts| ==>
              parts[i] == [Access(OwnFlag(ts[i].id), false)] +
                          if ts[i].own then []
                          else [Acquire(Appender(ts[i].id), Exclusive), Access(Layout(ts[i].id), true),
                                Release(Appender(ts[i].id))]
    ensures Calling(CallOnLoggers(CallSetFormatter(g, ts))) ==
            [Acquire(LoggerLock(g), Exclusive), Access(Attached(g), false)] + Flat(parts)
            + [Access(Formatter(g), true), Release(LoggerLock(g))]
  {
    hide Trace;
    parts := seq(|ts|, i requires 0 <= i < |ts| => Trace(Reformat(ts[i])));
    forall i | 0 <= i < |ts|
      ensures parts[i] == [Access(OwnFlag(ts[i].id), false)] +
                          if ts[i].own then []
                          else [Acquire(Appender(ts[i].id), Exclusive), Access(Layout(ts[i].id), true),
                                Release(Appender(ts[i].id))]
    {
      var rest := if ts[i].own then [] else [WriteLayout(ts[i].id)];
      TraceConcat([Read(OwnFlag(ts[i].id))], rest);
      TraceOfUses([Read(OwnFlag(ts[i].id))]);
      TraceOfUses([]);
      LayoutTraces(ts[i].id);
    }
    hide Flat;
    TraceJoin(seq(|ts|, i requires 0 <= i < |ts| => Reformat(ts[i])), parts);
    TraceConcat(ReformatAll(ts), [Write(Formatter(g))]);
    TraceOfUses([Write(Formatter(g))]);
    TraceOnLogger(g, ReformatAll(ts) + [Write(Formatter(g))]);
  }

  lemma ToYamlStrTrace(g: Logger, ids: seq<nat>)
    returns (parts: seq<seq<Instr>>)
    ensures |parts| == |ids|
    ensures forall i :: 0 <= i < |ids| ==>
              parts[i] == [Acquire(Appender(ids[i]), Exclusive), Access(Layout(ids[i]), false),
                           Release(Appender(ids[i])), Access(Threshold(ids[i]), false)]
    ensures Calling(CallOnLoggers(CallToYamlStr(g, ids))) ==
            [Access(Level(g), false), Acquire(LoggerLock(g), Exclusive), Access(Attached(g), false),
             Access(Formatter(g), false)] + Flat(parts) + [Release(LoggerLock(g))]
  {
    hide Trace;
    parts := seq(|ids|, i requires 0 <= i < |ids| => Trace(Describe(ids[i])));
    forall i | 0 <= i < |ids|
      ensures parts[i] == [Acquire(Appender(ids[i]), Exclusive), Access(Layout(ids[i]), false),
                           Release(Appender(ids[i])), Access(Threshold(ids[i]), false)]
    {
      LayoutTraces(ids[i]);
      TraceConcat([ReadLayout(ids[i])], [Read(Threshold(ids[i]))]);
      assert [ReadLayout(ids[i])] + [Read(Threshold(ids[i]))] == Describe(ids[i]);
      TraceOfUses([Read(Threshold(ids[i]))]);
    }
    hide Flat;
    var list := seq(|ids|, i requires 0 <= i < |ids| => Describe(ids[i]));
    TraceJoin(list, parts);
    TraceConcat([Read(Formatter(g))], Join(list));
    TraceOfUses([Read(Formatter(g))]);
    TraceOnLogger(g, [Read(Formatter(g))] + Join(list));
    AfterLevel(g, [Region(LoggerLock(g), Exclusive, [Read(Attached(g))] + ([Read(Formatter(g))] + Join(list)))]);
  }

  lemma AfterLevel(g: Logger, rest: seq<Block>)
    ensures Trace([Read(Level(g))] + rest) == [Access(Level(g), false)] + Trace(rest)
    ensures |rest| == 1 ==> [Read(Level(g)), rest[0]] == [Read(Level(g))] + rest
  {
    hide Trace;
    TraceConcat([Read(Level(g))], rest);
    TraceOfUses([Read(Level(g))]);
  }

  // ---------- Logging ----------

  /** What an appender does that is handed an event: nothing more below its level;
      else it writes under its lock, with its formatter; a file is first opened
      again, under the lock taken once more, where the second has changed. */
  predicate WritesAs(s: Sink, t: seq<Instr>) {
    match s
    case TooLow(a) => t == [Access(Threshold(a), false)]
    case Console(a) =>
      t == [Access(Threshold(a), false),
            Acquire(Appender(a), Exclusive), Access(Layout(a), false), Release(Appender(a))]
    case ToFile(a, reopens) =>
      t == [Access(Threshold(a), false), Access(LastTime(a), false)]
           + (if reopens
              then [Access(LastTime(a), true), Acquire(Appender(a), Exclusive), Access(File(a), true),
                    Release(Appender(a))]
              else [])
           + [Acquire(Appender(a), Exclusive), Access(Layout(a), false), Access(File(a), true), Release(Appender(a))]
  }

  lemma SinkTrace(s: Sink)
    ensures WritesAs(s, Trace(SinkBlocks(s)))
  {
    hide Trace;
    var a := s.id;
    match s
    case TooLow(_) => TraceOfUses([Read(Threshold(a))]);
    case Console(_) =>
      TraceOfUses([Read(Threshold(a))]);
      TraceUnder(Appender(a), Exclusive, [Read(Layout(a))]);
      TraceConcat([Read(Threshold(a))], [ReadLayout(a)]);
      assert [Read(Threshold(a))] + [ReadLayout(a)] == SinkBlocks(s);
    case ToFile(_, reopens) =>
      var opening := if reopens then [Write(LastTime(a)), Region(Appender(a), Exclusive, [Write(File(a))])] else [];
      TraceOfUses([Read(Threshold(a)), Read(LastTime(a))]);
      TraceUnder(Appender(a), Exclusive, [Read(Layout(a)), Write(File(a))]);
      TraceConcat([Read(Threshold(a)), Read(LastTime(a))] + opening, Emit(a));
      TraceConcat([Read(Threshold(a)), Read(LastTime(a))], opening);
      TraceOfUses([]);
      OpeningTrace(a);
  }

  lemma OpeningTrace(a: nat)
    ensures Trace([Write(LastTime(a)), Region(Appender(a), Exclusive, [Write(File(a))])]) ==
            [Access(LastTime(a), true), Acquire(Appender(a), Exclusive), Access(File(a), true), Release(Appender(a))]
  {
    hide Trace;
    var region := [Region(Appender(a), Exclusive, [Write(File(a))])];
    TraceOfUses([Write(LastTime(a))]);
    TraceUnder(Appender(a), Exclusive, [Write(File(a))]);
    TraceConcat([Write(LastTime(a))], region);
    assert [Write(LastTime(a))] + region == [Write(LastTime(a)), Region(Appender(a), Exclusive, [Write(File(a))])];
  }

  lemma SinksTrace(sinks: seq<Sink>)
    returns (parts: seq<seq<Instr>>)
    ensures |parts| == |sinks| && forall i :: 0 <= i < |sinks| ==> WritesAs(sinks[i], parts[i])
    ensures Trace(Sinks(sinks)) == Flat(parts)
  {
    hide Trace, Flat, WritesAs;
    parts := seq(|sinks|, i requires 0 <= i < |sinks| => Trace(SinkBlocks(sinks[i])));
    forall i | 0 <= i < |sinks| ensures WritesAs(sinks[i], parts[i]) {
      SinkTrace(sinks[i]);
    }
    TraceJoin(seq(|sinks|, i requires 0 <= i < |sinks| => SinkBlocks(sinks[i])), parts);
  }

  /** Logging through the root logger, or through a named one with appenders of
      its own: all its appenders, in order, under the logger's lock. */
  lemma LogTrace(g: Logger, sinks: seq<Sink>)
    returns (parts: seq<seq<Instr>>)
    ensures |parts| == |sinks| && forall i :: 0 <= i < |sinks| ==> WritesAs(sinks[i], parts[i])
    ensures Calling(CallOnLoggers(CallLog(if g.TheRoot? then ToRoot(Emits(sinks)) else Own(g.name, sinks)))) ==
            [Access(Level(g), false), Acquire(LoggerLock(g), Exclusive), Access(Attached(g), false)] + Flat(parts)
            + [Release(LoggerLock(g))]
  {
    hide Trace, Flat, WritesAs, Sinks;
    parts := SinksTrace(sinks);
    TraceOnLogger(g, Sinks(sinks));
    AfterLevel(g, [Region(LoggerLock(g), Exclusive, [Read(Attached(g))] + Sinks(sinks))]);
  }

  /** Below its level a logger only looks at it. */
  lemma QuietTrace(name: string)
    ensures Calling(CallOnLoggers(CallLog(ToRoot(Filtered)))) == [Access(Level(TheRoot), false)]
    ensures Calling(CallOnLoggers(CallLog(Dropped(name)))) == [Access(Level(ByName(name)), false)]
  {
    hide Trace;
    TraceOfUses([Read(Level(TheRoot))]);
    TraceOfUses([Read(Level(ByName(name)))]);
    assert [Read(Level(TheRoot))] + [] == [Read(Level(TheRoot))];
  }

  /** The library's own messages go to the root logger. */
  function Logged(message: RootLogging): Call { CallOnLoggers(CallLog(ToRoot(message))) }

  /** A named logger without appenders logs through the root logger, under its own
      lock. */
  lemma HandedOnTrace(name: string, root: RootLogging)
    ensures Calling(CallOnLoggers(CallLog(Inherited(name, root)))) ==
            [Access(Level(ByName(name)), false), Acquire(Named(name), Exclusive), Access(Attached(ByName(name)), false)]
            + Calling(Logged(root)) + [Release(Named(name))]
  {
    hide Trace, RootLog;
    TraceOnLogger(ByName(name), RootLog(root));
    AfterLevel(ByName(name), [Region(Named(name), Exclusive, [Read(Attached(ByName(name)))] + RootLog(root))]);
  }

  // ---------- Listeners ----------

  /** The calls that the listener of the "logs" variable makes for one definition. */
  function RedefiningCalls(d: Redefinition): seq<Call> {
    var g := ByName(d.name);
    [Logged(d.notice), CallOnLoggers(CallGetLogger), CallOnLoggers(CallSetLevel(g))] +
    match d
    case Remove(_, _) => [CallOnLoggers(CallDropAppenders(g))]
    case Define(_, _, reformatted, appenders) =>
      (if reformatted.Some? then [CallOnLoggers(CallSetFormatter(g, reformatted.value))] else [])
      + [CallOnLoggers(CallDropAppenders(g))]
      + Flat(seq(|appenders|, i requires 0 <= i < |appenders| => BuildingCalls(g, appenders[i])))
  }

  function BuildingCalls(g: Logger, a: NewAppender): seq<Call> {
    (if a.own then [CallOnLoggers(CallSetOwnLayout(a.id))] else [])
    + [CallOnLoggers(CallAddAppender(g, a.id, !a.own))]
  }

  function LoggerCalls(calls: seq<LoggerCall>): seq<Call> {
    seq(|calls|, i requires 0 <= i < |calls| => CallOnLoggers(calls[i]))
  }

  function ListenerCalls(l: Listener): seq<Call> {
    match l
    case LogsListener(ds) => Flat(seq(|ds|, i requires 0 <= i < |ds| => RedefiningCalls(ds[i])))
    case UserListener(calls) => LoggerCalls(calls)
  }

  function ToldCalls(ls: seq<Listener>): seq<Call> {
    Flat(seq(|ls|, i requires 0 <= i < |ls| => ListenerCalls(ls[i])))
  }

  lemma BuildingTrace(name: string, a: NewAppender)
    ensures Trace(BuildAppender(name, a)) == Program(BuildingCalls(ByName(name), a))
  {
    hide Trace, SetOwnLayout, AddAppender, Program;
    var own, add := CallOnLoggers(CallSetOwnLayout(a.id)), CallOnLoggers(CallAddAppender(ByName(name), a.id, !a.own));
    TraceConcat(if a.own then SetOwnLayout(a.id) else [], AddAppender(ByName(name), a.id, !a.own));
    OneCall(add);
    TwoCalls(own, add);
    TraceOfUses([]);
    assert [own] + [add] == [own, add] && [] + [add] == [add];
  }

  lemma BuildingAllTrace(name: string, appenders: seq<NewAppender>)
    ensures var lists := seq(|appenders|, i requires 0 <= i < |appenders| => BuildingCalls(ByName(name), appenders[i]));
            Trace(BuildAppenders(name, appenders)) == Program(Flat(lists))
  {
    hide Trace, Program, BuildAppender, BuildingCalls;
    var parts := seq(|appenders|, i requires 0 <= i < |appenders| => BuildAppender(name, appenders[i]));
    var traces := seq(|appenders|, i requires 0 <= i < |appenders| => Trace(BuildAppender(name, appenders[i])));
    var lists := seq(|appenders|, i requires 0 <= i < |appenders| => BuildingCalls(ByName(name), appenders[i]));
    forall i | 0 <= i < |appenders| ensures traces[i] == Program(lists[i]) {
      BuildingTrace(name, appenders[i]);
    }
    TraceJoin(parts, traces);
    ProgramFlat(lists, traces);
  }

  lemma RedefiningTrace(d: Redefinition)
    ensures Trace(Redefine(d)) == Program(RedefiningCalls(d))
  {
    hide Trace, Program, RootLog, GetLogger, SetFormatter, DropAppenders, BuildAppenders, BuildingCalls, Flat;
    var g := ByName(d.name);
    var level, drop := CallOnLoggers(CallSetLevel(g)), CallOnLoggers(CallDropAppenders(g));
    var start := [Logged(d.notice), CallOnLoggers(CallGetLogger), level];
    var rest := RedefiningCalls(d)[3..];
    assert RedefiningCalls(d) == start + rest;
    ProgramConcat(start, rest);
    ThreeCalls(Logged(d.notice), CallOnLoggers(CallGetLogger), level);
    OneCall(drop);
    match d {
      case Remove(_, _) =>
        assert rest == [drop];
        TraceOfStart(d.notice, g, DropAppenders(g));
      case Define(name, _, reformatted, appenders) =>
        var again := if reformatted.Some? then SetFormatter(g, reformatted.value) else [];
        var anew := if reformatted.Some? then [CallOnLoggers(CallSetFormatter(g, reformatted.value))] else [];
        var built := Flat(seq(|appenders|, i requires 0 <= i < |appenders| => BuildingCalls(g, appenders[i])));
        assert rest == anew + [drop] + built;
        ProgramConcat(anew + [drop], built);
        ProgramConcat(anew, [drop]);
        assert Trace(again) == Program(anew) by {
          NoCalls();
          TraceOfUses([]);
          if reformatted.Some? {
            OneCall(anew[0]);
          }
        }
        BuildingAllTrace(name, appenders);
        TraceConcat(DropAppenders(g), BuildAppenders(name, appenders));
        TraceConcat(again, DropAppenders(g) + BuildAppenders(name, appenders));
        TraceOfStart(d.notice, g, again + (DropAppenders(g) + BuildAppenders(name, appenders)));
    }
  }

  lemma ThreeCalls(a: Call, b: Call, c: Call)
    ensures Program([a, b, c]) == Calling(a) + Calling(b) + Calling(c)
  {
    hide Trace, Blocks;
    TwoCalls(a, b);
    OneCall(c);
    ProgramConcat([a, b], [c]);
    assert [a, b] + [c] == [a, b, c];
  }

  lemma TraceOfStart(notice: RootLogging, g: Logger, rest: seq<Block>)
    ensures Trace(RootLog(notice) + (GetLogger() + ([Write(Level(g))] + rest))) ==
            Calling(Logged(notice)) + Calling(CallOnLoggers(CallGetLogger)) + Calling(CallOnLoggers(CallSetLevel(g)))
            + Trace(rest)
  {
    hide Trace, RootLog, GetLogger;
    TraceConcat([Write(Level(g))], rest);
    TraceConcat(GetLogger(), [Write(Level(g))] + rest);
    TraceConcat(RootLog(notice), GetLogger() + ([Write(Level(g))] + rest));
  }

  lemma ListenerTrace(l: Listener)
    ensures Trace(Notify(l)) == Program(ListenerCalls(l))
  {
    hide Trace, Program, Redefine, RedefiningCalls, OnLoggers;
    match l
    case LogsListener(ds) =>
      var parts := seq(|ds|, i requires 0 <= i < |ds| => Redefine(ds[i]));
      var traces := seq(|ds|, i requires 0 <= i < |ds| => Trace(Redefine(ds[i])));
      var lists := seq(|ds|, i requires 0 <= i < |ds| => RedefiningCalls(ds[i]));
      forall i | 0 <= i < |ds| ensures traces[i] == Program(lists[i]) {
        RedefiningTrace(ds[i]);
      }
      TraceJoin(parts, traces);
      ProgramFlat(lists, traces);
    case UserListener(calls) => AllCallsTrace(calls);
  }

  lemma AllCallsTrace(calls: seq<LoggerCall>)
    ensures Trace(AllOnLoggers(calls)) == Program(LoggerCalls(calls))
  {
    hide Trace, Program, OnLoggers;
    TraceJoin(seq(|calls|, i requires 0 <= i < |calls| => OnLoggers(calls[i])),
              seq(|calls|, i requires 0 <= i < |calls| => Trace(OnLoggers(calls[i]))));
    CallsOnLoggers(calls);
  }

  lemma {:induction false} CallsOnLoggers(calls: seq<LoggerCall>)
    ensures Flat(seq(|calls|, i requires 0 <= i < |calls| => Trace(OnLoggers(calls[i])))) ==
            Program(LoggerCalls(calls))
  {
    hide Trace, OnLoggers;
    var traces := seq(|calls|, i requires 0 <= i < |calls| => Trace(OnLoggers(calls[i])));
    var all := LoggerCalls(calls);
    if calls == [] {
    } else {
      var rest := calls[1..];
      CallsOnLoggers(rest);
      assert traces[1..] == seq(|rest|, i requires 0 <= i < |rest| => Trace(OnLoggers(rest[i])));
      assert all[1..] == LoggerCalls(rest);
    }
  }

  /** The listeners are called one after the other, and do no more than their calls. */
  lemma ToldTrace(ls: seq<Listener>)
    ensures Trace(NotifyAll(ls)) == Program(ToldCalls(ls))
  {
    hide Trace, Program, Notify, ListenerCalls;
    var parts := seq(|ls|, i requires 0 <= i < |ls| => Notify(ls[i]));
    var traces := seq(|ls|, i requires 0 <= i < |ls| => Trace(Notify(ls[i])));
    var lists := seq(|ls|, i requires 0 <= i < |ls| => ListenerCalls(ls[i]));
    forall i | 0 <= i < |ls| ensures traces[i] == Program(lists[i]) {
      ListenerTrace(ls[i]);
    }
    TraceJoin(parts, traces);
    ProgramFlat(lists, traces);
  }

  // ---------- Storing ----------

  /** setValue only looks where nothing changes. Else it reads the value and the
      listeners and makes all the listeners' calls under the read lock, gives that
      lock back, and then stores under the write lock. */
  lemma SetValueTrace(v: string, ls: seq<Listener>)
    ensures Calling(CallSetValue(v, None)) ==
            [Acquire(Variable(v), Shared), Access(Value(v), false), Release(Variable(v))]
    ensures Calling(CallSetValue(v, Some(ls))) ==
            [Acquire(Variable(v), Shared), Access(Value(v), false), Access(Listeners(v), false)]
            + Program(ToldCalls(ls))
            + [Release(Variable(v)), Acquire(Variable(v), Exclusive), Access(Value(v), true), Release(Variable(v))]
  {
    hide Trace, NotifyAll, Program, ToldCalls;
    var looking := [Read(Value(v)), Read(Listeners(v))];
    TraceUnder(Variable(v), Shared, [Read(Value(v))]);
    TraceUnder(Variable(v), Exclusive, [Write(Value(v))]);
    ToldTrace(ls);
    TraceOfUses(looking);
    TraceConcat(looking, NotifyAll(ls));
    TraceRegion(Variable(v), Shared, looking + NotifyAll(ls));
    TraceConcat([Region(Variable(v), Shared, looking + NotifyAll(ls))],
                [Region(Variable(v), Exclusive, [Write(Value(v))])]);
  }

  /** A failed conversion is reported with no lock of the variable held any more. */
  lemma ToStringTrace(v: string, failure: Option<RootLogging>)
    ensures Calling(CallToString(v, failure)) ==
            [Acquire(Variable(v), Shared), Access(Value(v), false), Release(Variable(v))]
            + if failure.Some? then Calling(Logged(failure.value)) else []
  {
    hide Trace, RootLog;
    GetValueTrace(v);
    TraceConcat(GetValue(v), if failure.Some? then RootLog(failure.value) else []);
    TraceOfUses([]);
  }

  // ---------- The registry ----------

  /** The creating Lookup does everything under the registry's write lock, and only
      a name that is new and valid makes it write. */
  lemma LookupTrace(f: Found)
    ensures Calling(CallLookup(f)) ==
            [Acquire(Registry, Exclusive), Access(Variables, false)]
            + (match f
               case Exists(notice) => Calling(Logged(notice))
               case OtherType(v, failure, notice) => Calling(CallToString(v, failure)) + Calling(Logged(notice))
               case Created => [Access(Variables, true)]
               case BadName(notice) => Calling(Logged(notice)))
            + [Release(Registry)]
  {
    hide Trace, RootLog, ToString;
    TraceRegion(Registry, Exclusive, [Read(Variables)] + InLookup(f));
    TraceConcat([Read(Variables)], InLookup(f));
    TraceOfUses([Read(Variables)]);
    match f
    case Exists(_) =>
    case OtherType(v, failure, notice) => TraceConcat(ToString(v, failure), RootLog(notice));
    case Created => TraceOfUses([Write(Variables)]);
    case BadName(_) =>
  }

  lemma LookupBaseTrace()
    ensures Calling(CallLookupBase) == [Acquire(Registry, Shared), Access(Variables, false), Release(Registry)]
  {
    hide Trace;
    TraceUnder(Registry, Shared, [Read(Variables)]);
  }

  /** For one listed node: look its name up, and if it is there set the variable,
      or report that the text does not parse. */
  function AssigningCalls(a: Assignment): seq<Call> {
    [CallLookupBase] +
    match a
    case Unknown => []
    case Unparsed(report) => [Logged(report)]
    case Assigned(v, changes) => [CallSetValue(v, changes)]
  }

  lemma AssigningTrace(a: Assignment)
    ensures Trace(Assign(a)) == Program(AssigningCalls(a))
  {
    hide Trace, LookupBase, RootLog, SetValue, Program;
    OneCall(CallLookupBase);
    match a
    case Unknown =>
      assert AssigningCalls(a) == [CallLookupBase];
      assert Assign(a) == LookupBase();
    case Unparsed(report) =>
      TwoCalls(CallLookupBase, Logged(report));
      TraceConcat(LookupBase(), RootLog(report));
      assert AssigningCalls(a) == [CallLookupBase, Logged(report)];
    case Assigned(v, changes) =>
      TwoCalls(CallLookupBase, CallSetValue(v, changes));
      TraceConcat(LookupBase(), SetValue(v, changes));
      assert AssigningCalls(a) == [CallLookupBase, CallSetValue(v, changes)];
  }

  /** A load reports the bad names first, while it lists the nodes, and then makes
      the calls for each node, holding no lock of its own. */
  lemma LoadTrace(bad: seq<RootLogging>, assignments: seq<Assignment>)
    ensures Calling(CallLoadFromYaml(bad, assignments)) ==
            Program(seq(|bad|, i requires 0 <= i < |bad| => Logged(bad[i])))
            + Program(Flat(seq(|assignments|, i requires 0 <= i < |assignments| => AssigningCalls(assignments[i]))))
  {
    hide Trace, Program, Assign, AssigningCalls, RootLogs;
    TraceConcat(RootLogs(bad), AssignAll(assignments));
    ReportsTrace(bad);
    var traces := seq(|assignments|, i requires 0 <= i < |assignments| => Trace(Assign(assignments[i])));
    var lists := seq(|assignments|, i requires 0 <= i < |assignments| => AssigningCalls(assignments[i]));
    forall i | 0 <= i < |assignments| ensures traces[i] == Program(lists[i]) {
      AssigningTrace(assignments[i]);
    }
    TraceJoin(seq(|assignments|, i requires 0 <= i < |assignments| => Assign(assignments[i])), traces);
    ProgramFlat(lists, traces);
  }

  lemma ReportsTrace(bad: seq<RootLogging>)
    ensures Trace(RootLogs(bad)) == Program(seq(|bad|, i requires 0 <= i < |bad| => Logged(bad[i])))
  {
    hide Trace, Program, RootLog;
    var calls := seq(|bad|, i requires 0 <= i < |bad| => CallLog(ToRoot(bad[i])));
    CallsOnLoggers(calls);
    var parts := seq(|bad|, i requires 0 <= i < |bad| => RootLog(bad[i]));
    TraceJoin(parts, seq(|bad|, i requires 0 <= i < |bad| => Trace(RootLog(bad[i]))));
    assert seq(|bad|, i requires 0 <= i < |bad| => Trace(RootLog(bad[i]))) ==
           seq(|calls|, i requires 0 <= i < |calls| => Trace(OnLoggers(calls[i])));
    assert seq(|bad|, i requires 0 <= i < |bad| => Logged(bad[i])) == LoggerCalls(calls);
  }

  /** A callback that prints the variable and makes calls on loggers. */
  function VisitingCalls(v: Visited): seq<Call> {
    [CallToString(v.name, v.failure)] + LoggerCalls(v.calls)
  }

  /** A Visit makes its callbacks' calls under the registry's read lock. */
  lemma VisitTrace(visited: seq<Visited>)
    ensures Calling(CallVisit(visited)) ==
            [Acquire(Registry, Shared), Access(Variables, false)]
            + Program(Flat(seq(|visited|, i requires 0 <= i < |visited| => VisitingCalls(visited[i]))))
            + [Release(Registry)]
  {
    hide Trace, Program, VisitOne, VisitingCalls;
    TraceRegion(Registry, Shared, [Read(Variables)] + Visits(visited));
    TraceConcat([Read(Variables)], Visits(visited));
    TraceOfUses([Read(Variables)]);
    var traces := seq(|visited|, i requires 0 <= i < |visited| => Trace(VisitOne(visited[i])));
    var lists := seq(|visited|, i requires 0 <= i < |visited| => VisitingCalls(visited[i]));
    forall i | 0 <= i < |visited| ensures traces[i] == Program(lists[i]) {
      VisitingTrace(visited[i]);
    }
    TraceJoin(seq(|visited|, i requires 0 <= i < |visited| => VisitOne(visited[i])), traces);
    ProgramFlat(lists, traces);
  }

  lemma VisitingTrace(v: Visited)
    ensures Trace(VisitOne(v)) == Program(VisitingCalls(v))
  {
    hide Trace, Program, ToString, AllOnLoggers;
    var more := LoggerCalls(v.calls);
    TraceConcat(ToString(v.name, v.failure), AllOnLoggers(v.calls));
    ProgramConcat([CallToString(v.name, v.failure)], more);
    OneCall(CallToString(v.name, v.failure));
    AllCallsTrace(v.calls);
  }

  // ---------- In a run ----------

  /** A thread about to use a guarded datum holds its lock; where it writes, it
      holds it exclusively, and no other thread holds it at all. */
  lemma GuardHeld(programs: seq<seq<Call>>, run: seq<nat>, i: nat, d: Datum, write: bool)
    requires ValidRun(Start(programs), run) && i < |After(Start(programs), run)|
    requires Guard(d).Some?
    requires var t := After(Start(programs), run)[i]; t.rest != [] && t.rest[0] == Access(d, write)
    ensures var s := After(Start(programs), run);
            && (exists h :: h in s[i].held && h.lock == Guard(d).value && (write ==> h.mode == Exclusive))
            && (write ==> forall u, h | 0 <= u < |s| && u != i && h in s[u].held :: h.lock != Guard(d).value)
  {
    StartOk(programs);
    RunOk(Start(programs), run);
    var s := After(Start(programs), run);
    assert Protected(s[i].held, d, write);
    var h :| h in s[i].held && h.lock == Guard(d).value && (write ==> h.mode == Exclusive);
    forall u, k | write && 0 <= u < |s| && u != i && k in s[u].held ensures k.lock != h.lock {
      assert if u < i then Excludes(s[u], s[i]) else Excludes(s[i], s[u]);
    }
  }

  /** After some part of a run thread `i` has `rest` still to do. */
  ghost predicate HadLeft(s: seq<Thread>, run: seq<nat>, i: nat, rest: seq<Instr>) {
    exists j :: 0 <= j <= |run| && ValidRun(s, run[..j]) && i < |After(s, run[..j])| &&
                After(s, run[..j])[i].rest == rest
  }

  lemma LeftAtStart(s: seq<Thread>, run: seq<nat>, i: nat)
    requires i < |s|
    ensures HadLeft(s, run, i, s[i].rest)
  {
    assert run[..0] == [] && ValidRun(s, run[..0]) && After(s, run[..0]) == s;
  }

  lemma LeftLater(s: seq<Thread>, run: seq<nat>, i: nat, rest: seq<Instr>)
    requires run != [] && run[0] < |s| && CanStep(s, run[0]) && HadLeft(Stepped(s, run[0]), run[1..], i, rest)
    ensures HadLeft(s, run, i, rest)
  {
    var s1 := Stepped(s, run[0]);
    var j :| 0 <= j <= |run[1..]| && ValidRun(s1, run[1..][..j]) && i < |After(s1, run[1..][..j])| &&
             After(s1, run[1..][..j])[i].rest == rest;
    assert run[..j + 1][1..] == run[1..][..j] && run[..j + 1][0] == run[0];
    assert ValidRun(s, run[..j + 1]) && After(s, run[..j + 1]) == After(s1, run[1..][..j]);
  }

  /** Threads skip nothing: a thread that has finished has stood before each of its
      operations. */
  lemma {:induction false} NothingSkipped(s: seq<Thread>, run: seq<nat>, i: nat, k: nat)
    requires ValidRun(s, run) && i < |s| && i < |After(s, run)| && After(s, run)[i].rest == [] && k < |s[i].rest|
    ensures HadLeft(s, run, i, s[i].rest[k..])
    decreases |run|
  {
    hide CanStep, HadLeft;
    if k == 0 {
      LeftAtStart(s, run, i);
      assert s[i].rest[0..] == s[i].rest;
    } else {
      CanStepHasWork(s, run[0]);
      var s1 := Stepped(s, run[0]);
      if run[0] == i {
        assert s1[i].rest == s[i].rest[1..];
        NothingSkipped(s1, run[1..], i, k - 1);
        assert s[i].rest[1..][k - 1..] == s[i].rest[k..];
      } else {
        NothingSkipped(s1, run[1..], i, k);
      }
      LeftLater(s, run, i, s[i].rest[k..]);
    }
  }

  /** Every call of setValue that changes something has, once its thread is through,
      stood before its store with the variable's lock held exclusively, while no
      other thread held that lock to read or to write: so it has waited for all of
      them. */
  lemma StoresExclusively(programs: seq<seq<Call>>, run: seq<nat>, i: nat,
                          before: seq<Call>, v: string, ls: seq<Listener>, after: seq<Call>)
    returns (j: nat)
    requires i < |programs| && programs[i] == before + [CallSetValue(v, Some(ls))] + after
    requires ValidRun(Start(programs), run)
    requires i < |After(Start(programs), run)| && After(Start(programs), run)[i].rest == []
    ensures j <= |run| && ValidRun(Start(programs), run[..j])
    ensures var s := After(Start(programs), run[..j]);
            && i < |s| && s[i].rest != [] && s[i].rest[0] == Access(Value(v), true)
            && (exists h :: h in s[i].held && h.lock == Variable(v) && h.mode == Exclusive)
            && forall u, h | 0 <= u < |s| && u != i && h in s[u].held :: h.lock != Variable(v)
  {
    hide Program, Trace, Blocks, Calling, CanStep, ValidRun, After;
    var s := Start(programs);
    var k := StoreInProgram(before, v, ls, after);
    NothingSkipped(s, run, i, k);
    j :| 0 <= j <= |run| && ValidRun(s, run[..j]) && i < |After(s, run[..j])| &&
         After(s, run[..j])[i].rest == s[i].rest[k..];
    GuardHeld(programs, run[..j], i, Value(v), true);
  }

  lemma StoreInProgram(before: seq<Call>, v: string, ls: seq<Listener>, after: seq<Call>)
    returns (k: nat)
    ensures var p := Program(before + [CallSetValue(v, Some(ls))] + after);
            k < |p| && p[k] == Access(Value(v), true)
  {
    hide Program, Trace, Blocks, ToldCalls;
    var c := CallSetValue(v, Some(ls));
    ProgramConcat(before + [c], after);
    ProgramConcat(before, [c]);
    OneCall(c);
    SetValueTrace(v, ls);
    k := |Program(before)| + |Trace(Blocks(c))| - 2;
  }
}

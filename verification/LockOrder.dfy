/** The locks of the configuration store and the loggers, and the data under them.

    Every lock of the library is taken through a scoped guard, so what a call does is a forest:
    a region acquires one lock, runs what is nested in it and releases the lock; a leaf reads or
    writes one datum that threads share. This module writes down that forest for every call of
    the interface. Whatever a call decides from data (is the variable there, does the text parse,
    which appenders are attached, is a file reopened) is a field of the call, so that a theorem
    about all calls covers all decisions. */
module LockOrder {
  import opened Options

  datatype Lock =
    | Registry                  // Config::GetMutex
    | Variable(name: string)    // ConfigVar::m_mutex
    | Manager                   // LoggerManager::m_mutex
    | Named(name: string)       // Logger::m_mutex of a logger made by getLogger
    | Root                      // Logger::m_mutex of the root logger
    | Appender(id: nat)         // LogAppender::m_mutex

  datatype Mode = Shared | Exclusive
  datatype Held = Held(lock: Lock, mode: Mode)

  function Rank(l: Lock): nat {
    match l
    case Registry => 0
    case Variable(_) => 1
    case Manager => 2
    case Named(_) => 3
    case Root => 4
    case Appender(_) => 5
  }

  datatype Logger = TheRoot | ByName(name: string)

  function LoggerLock(g: Logger): Lock {
    if g.TheRoot? then Root else Named(g.name)
  }

  datatype Datum =
    | Variables                  // the registry's map
    | Value(name: string)        // m_val
    | Listeners(name: string)    // m_cbs
    | NextKey(typeName: string)  // addListener's static counter, one for each value type
    | Loggers                    // m_loggers
    | Attached(g: Logger)        // Logger::m_appenders
    | Formatter(g: Logger)       // Logger::m_formatter
    | Level(g: Logger)           // Logger::m_level
    | Layout(id: nat)            // LogAppender::m_formatter
    | OwnFlag(id: nat)           // LogAppender::has_formatter
    | Threshold(id: nat)         // LogAppender::m_level
    | File(id: nat)              // FileAppender::m_filestream
    | LastTime(id: nat)          // FileAppender::m_last_time

  /** The lock that guards a datum, if one does. */
  function Guard(d: Datum): Option<Lock> {
    match d
    case Variables => Some(Registry)
    case Value(v) => Some(Variable(v))
    case Listeners(v) => Some(Variable(v))
    case Loggers => Some(Manager)
    case Attached(g) => Some(LoggerLock(g))
    case Layout(a) => Some(Appender(a))
    case File(a) => Some(Appender(a))
    case NextKey(_) => None
    case Formatter(_) => None
    case Level(_) => None
    case OwnFlag(_) => None
    case Threshold(_) => None
    case LastTime(_) => None
  }

  datatype Block = Region(lock: Lock, mode: Mode, body: seq<Block>) | Use(datum: Datum, write: bool)

  function Read(d: Datum): Block { Use(d, false) }

  function Write(d: Datum): Block { Use(d, true) }

  ghost predicate Below(held: seq<Held>, rank: nat) {
    forall h | h in held :: Rank(h.lock) < rank
  }

  /** A guarded datum is used under its lock, and written under it exclusively. */
  ghost predicate Protected(held: seq<Held>, d: Datum, write: bool) {
    Guard(d).Some? ==> exists h :: h in held && h.lock == Guard(d).value && (write ==> h.mode == Exclusive)
  }

  /** Run by a thread that holds `held`, the blocks take only locks ranked above all locks held at
      the time, and use guarded data only under their locks. */
  ghost predicate Sound(bs: seq<Block>, held: seq<Held>)
    decreases bs
  {
    forall i | 0 <= i < |bs| ::
      match bs[i]
      case Region(l, m, body) => Below(held, Rank(l)) && Sound(body, held + [Held(l, m)])
      case Use(d, w) => Protected(held, d, w)
  }

  function Join(parts: seq<seq<Block>>): seq<Block> {
    if parts == [] then [] else parts[0] + Join(parts[1..])
  }

  lemma {:induction false} JoinSound(parts: seq<seq<Block>>, held: seq<Held>)
    requires forall i | 0 <= i < |parts| :: Sound(parts[i], held)
    ensures Sound(Join(parts), held)
  {
    if parts == [] {
    } else {
      JoinSound(parts[1..], held);
      Concat(parts[0], Join(parts[1..]), held);
    }
  }

  lemma Concat(a: seq<Block>, b: seq<Block>, held: seq<Held>)
    requires Sound(a, held) && Sound(b, held)
    ensures Sound(a + b, held)
  {
  }

  lemma Enter(l: Lock, m: Mode, body: seq<Block>, held: seq<Held>)
    requires Below(held, Rank(l)) && Sound(body, held + [Held(l, m)])
    ensures Sound([Region(l, m, body)], held)
  {
  }

  lemma Under(held: seq<Held>, l: Lock, m: Mode, d: Datum, write: bool)
    requires Guard(d) == Some(l) && (write ==> m == Exclusive)
    ensures Protected(held + [Held(l, m)], d, write)
  {
    assert Held(l, m) in held + [Held(l, m)];
  }

  // ---- Logging --------------------------------------------------------------------------------

  /** An appender asked to log: below its level nothing; a file appender whose second has passed
      locks once to reopen and once more to write. */
  datatype Sink = TooLow(id: nat) | Console(id: nat) | ToFile(id: nat, reopens: bool)

  function Emit(a: nat): seq<Block> {
    [Region(Appender(a), Exclusive, [Read(Layout(a)), Write(File(a))])]
  }

  function SinkBlocks(s: Sink): seq<Block> {
    match s
    case TooLow(a) => [Read(Threshold(a))]
    case Console(a) => [Read(Threshold(a)), Region(Appender(a), Exclusive, [Read(Layout(a))])]
    case ToFile(a, reopens) =>
      [Read(Threshold(a)), Read(LastTime(a))]
      + (if reopens then [Write(LastTime(a)), Region(Appender(a), Exclusive, [Write(File(a))])] else [])
      + Emit(a)
  }

  function Sinks(sinks: seq<Sink>): seq<Block> {
    Join(seq(|sinks|, i requires 0 <= i < |sinks| => SinkBlocks(sinks[i])))
  }

  /** Logger::log on the root logger, and on any. A named logger without appenders logs through the
      root logger while it still holds its own lock. */
  datatype RootLogging = Filtered | Emits(sinks: seq<Sink>)
  datatype Logging = ToRoot(root: RootLogging) | Dropped(name: string) | Own(name: string, sinks: seq<Sink>)
                   | Inherited(name: string, root: RootLogging)

  function RootLog(g: RootLogging): seq<Block> {
    [Read(Level(TheRoot))]
    + match g
      case Filtered => []
      case Emits(sinks) => [Region(Root, Exclusive, [Read(Attached(TheRoot))] + Sinks(sinks))]
  }

  function Log(g: Logging): seq<Block> {
    match g
    case ToRoot(root) => RootLog(root)
    case Dropped(name) => [Read(Level(ByName(name)))]
    case Own(name, sinks) =>
      [Read(Level(ByName(name))), Region(Named(name), Exclusive, [Read(Attached(ByName(name)))] + Sinks(sinks))]
    case Inherited(name, root) =>
      [Read(Level(ByName(name))), Region(Named(name), Exclusive, [Read(Attached(ByName(name)))] + RootLog(root))]
  }

  lemma SinkSound(s: Sink, held: seq<Held>)
    requires Below(held, 5)
    ensures Sound(SinkBlocks(s), held)
  {
    var a := s.id;
    var on := Appender(a);
    Under(held, on, Exclusive, Layout(a), false);
    Under(held, on, Exclusive, File(a), true);
    Enter(on, Exclusive, [Read(Layout(a)), Write(File(a))], held);
    Enter(on, Exclusive, [Read(Layout(a))], held);
    Enter(on, Exclusive, [Write(File(a))], held);
  }

  lemma SinksSound(sinks: seq<Sink>, held: seq<Held>)
    requires Below(held, 5)
    ensures Sound(Sinks(sinks), held)
  {
    forall i | 0 <= i < |sinks| ensures Sound(SinkBlocks(sinks[i]), held) {
      SinkSound(sinks[i], held);
    }
    JoinSound(seq(|sinks|, i requires 0 <= i < |sinks| => SinkBlocks(sinks[i])), held);
  }

  // A logger's lock around looking at its appenders and anything sound under it.
  lemma OnLogger(g: Logger, body: seq<Block>, held: seq<Held>)
    requires Below(held, Rank(LoggerLock(g)))
    requires Sound(body, held + [Held(LoggerLock(g), Exclusive)])
    ensures Sound([Region(LoggerLock(g), Exclusive, [Read(Attached(g))] + body)], held)
  {
    var inside := held + [Held(LoggerLock(g), Exclusive)];
    Under(held, LoggerLock(g), Exclusive, Attached(g), false);
    Concat([Read(Attached(g))], body, inside);
    Enter(LoggerLock(g), Exclusive, [Read(Attached(g))] + body, held);
  }

  lemma RootLogSound(g: RootLogging, held: seq<Held>)
    requires Below(held, 4)
    ensures Sound(RootLog(g), held)
  {
    if g.Emits? {
      SinksSound(g.sinks, held + [Held(Root, Exclusive)]);
      OnLogger(TheRoot, Sinks(g.sinks), held);
    }
  }

  lemma LogSound(g: Logging, held: seq<Held>)
    requires Below(held, 3)
    ensures Sound(Log(g), held)
  {
    match g
    case ToRoot(root) => RootLogSound(root, held);
    case Dropped(_) =>
    case Own(name, sinks) =>
      SinksSound(sinks, held + [Held(Named(name), Exclusive)]);
      OnLogger(ByName(name), Sinks(sinks), held);
    case Inherited(name, root) =>
      RootLogSound(root, held + [Held(Named(name), Exclusive)]);
      OnLogger(ByName(name), RootLog(root), held);
  }

  // ---- Changing loggers -----------------------------------------------------------------------

  function ReadLayout(a: nat): Block { Region(Appender(a), Exclusive, [Read(Layout(a))]) }

  function WriteLayout(a: nat): Block { Region(Appender(a), Exclusive, [Write(Layout(a))]) }

  function SetOwnLayout(a: nat): seq<Block> {
    [Region(Appender(a), Exclusive, [Write(Layout(a)), Write(OwnFlag(a))])]
  }

  function AddAppender(g: Logger, a: nat, inherits: bool): seq<Block> {
    [Region(LoggerLock(g), Exclusive,
            [Read(Attached(g)), ReadLayout(a)]
            + (if inherits then [Read(Formatter(g)), WriteLayout(a)] else [])
            + [Write(Attached(g))])]
  }

  /** An attached appender and whether it has a formatter of its own. */
  datatype Attachment = Attachment(id: nat, own: bool)

  function Reformat(t: Attachment): seq<Block> {
    [Read(OwnFlag(t.id))] + if t.own then [] else [WriteLayout(t.id)]
  }

  function ReformatAll(ts: seq<Attachment>): seq<Block> {
    Join(seq(|ts|, i requires 0 <= i < |ts| => Reformat(ts[i])))
  }

  // From a string; the form that takes a formatter object stores it before it visits the appenders.
  function SetFormatter(g: Logger, ts: seq<Attachment>): seq<Block> {
    [Region(LoggerLock(g), Exclusive, [Read(Attached(g))] + (ReformatAll(ts) + [Write(Formatter(g))]))]
  }

  // clearAppender and delAppender.
  function DropAppenders(g: Logger): seq<Block> {
    [Region(LoggerLock(g), Exclusive, [Write(Attached(g))])]
  }

  function Describe(a: nat): seq<Block> {
    [ReadLayout(a), Read(Threshold(a))]
  }

  function ToYamlStr(g: Logger, ids: seq<nat>): seq<Block> {
    [Read(Level(g)),
     Region(LoggerLock(g), Exclusive,
            [Read(Attached(g))] + ([Read(Formatter(g))] +
                Join(seq(|ids|, i requires 0 <= i < |ids| => Describe(ids[i])))))]
  }

  function GetLogger(): seq<Block> {
    [Region(Manager, Exclusive, [Read(Loggers), Write(Loggers)])]
  }

  lemma LayoutSound(a: nat, held: seq<Held>)
    requires Below(held, 5)
    ensures Sound([ReadLayout(a)], held) && Sound([WriteLayout(a)], held) && Sound(SetOwnLayout(a), held)
  {
    var on := Appender(a);
    Under(held, on, Exclusive, Layout(a), true);
    Enter(on, Exclusive, [Read(Layout(a))], held);
    Enter(on, Exclusive, [Write(Layout(a))], held);
    Enter(on, Exclusive, [Write(Layout(a)), Write(OwnFlag(a))], held);
  }

  lemma AddSound(g: Logger, a: nat, inherits: bool, held: seq<Held>)
    requires Below(held, Rank(LoggerLock(g)))
    ensures Sound(AddAppender(g, a, inherits), held)
  {
    var inside := held + [Held(LoggerLock(g), Exclusive)];
    LayoutSound(a, inside);
    Under(held, LoggerLock(g), Exclusive, Attached(g), true);
    var middle := if inherits then [Read(Formatter(g)), WriteLayout(a)] else [];
    Concat([Read(Attached(g))], [ReadLayout(a)], inside);
    assert [Read(Attached(g)), ReadLayout(a)] == [Read(Attached(g))] + [ReadLayout(a)];
    if inherits {
      Concat([Read(Formatter(g))], [WriteLayout(a)], inside);
      assert middle == [Read(Formatter(g))] + [WriteLayout(a)];
    }
    Concat([Read(Attached(g)), ReadLayout(a)], middle, inside);
    Concat([Read(Attached(g)), ReadLayout(a)] + middle, [Write(Attached(g))], inside);
    Enter(LoggerLock(g), Exclusive, [Read(Attached(g)), ReadLayout(a)] + middle + [Write(Attached(g))], held);
  }

  lemma SetFormatterSound(g: Logger, ts: seq<Attachment>, held: seq<Held>)
    requires Below(held, Rank(LoggerLock(g)))
    ensures Sound(SetFormatter(g, ts), held)
  {
    var inside := held + [Held(LoggerLock(g), Exclusive)];
    forall i | 0 <= i < |ts| ensures Sound(Reformat(ts[i]), inside) {
      LayoutSound(ts[i].id, inside);
    }
    JoinSound(seq(|ts|, i requires 0 <= i < |ts| => Reformat(ts[i])), inside);
    Concat(ReformatAll(ts), [Write(Formatter(g))], inside);
    OnLogger(g, ReformatAll(ts) + [Write(Formatter(g))], held);
  }

  lemma DropSound(g: Logger, held: seq<Held>)
    requires Below(held, Rank(LoggerLock(g)))
    ensures Sound(DropAppenders(g), held)
  {
    Under(held, LoggerLock(g), Exclusive, Attached(g), true);
    Enter(LoggerLock(g), Exclusive, [Write(Attached(g))], held);
  }

  lemma ToYamlSound(g: Logger, ids: seq<nat>, held: seq<Held>)
    requires Below(held, Rank(LoggerLock(g)))
    ensures Sound(ToYamlStr(g, ids), held)
  {
    var inside := held + [Held(LoggerLock(g), Exclusive)];
    forall i | 0 <= i < |ids| ensures Sound(Describe(ids[i]), inside) {
      LayoutSound(ids[i], inside);
    }
    var parts := seq(|ids|, i requires 0 <= i < |ids| => Describe(ids[i]));
    JoinSound(parts, inside);
    Concat([Read(Formatter(g))], Join(parts), inside);
    OnLogger(g, [Read(Formatter(g))] + Join(parts), held);
  }

  lemma GetLoggerSound(held: seq<Held>)
    requires Below(held, 2)
    ensures Sound(GetLogger(), held)
  {
    Under(held, Manager, Exclusive, Loggers, true);
    Enter(Manager, Exclusive, [Read(Loggers), Write(Loggers)], held);
  }

  // ---- Calls on loggers -----------------------------------------------------------------------

  /** The calls that concern loggers and appenders only. Callbacks may make them too. */
  datatype LoggerCall =
    | CallGetLogger
    | CallLog(logging: Logging)
    | CallSetLevel(logger: Logger)
    | CallGetFormatter(logger: Logger)
    | CallSetFormatter(logger: Logger, attached: seq<Attachment>)
    | CallAddAppender(logger: Logger, id: nat, inherits: bool)
    | CallDropAppenders(logger: Logger)
    | CallToYamlStr(logger: Logger, ids: seq<nat>)
    | CallSetOwnLayout(id: nat)
    | CallSetThreshold(id: nat)

  function OnLoggers(c: LoggerCall): seq<Block> {
    match c
    case CallGetLogger => GetLogger()
    case CallLog(logging) => Log(logging)
    case CallSetLevel(g) => [Write(Level(g))]
    case CallGetFormatter(g) => [Read(Formatter(g))]
    case CallSetFormatter(g, attached) => SetFormatter(g, attached)
    case CallAddAppender(g, id, inherits) => AddAppender(g, id, inherits)
    case CallDropAppenders(g) => DropAppenders(g)
    case CallToYamlStr(g, ids) => ToYamlStr(g, ids)
    case CallSetOwnLayout(a) => SetOwnLayout(a)
    case CallSetThreshold(a) => [Write(Threshold(a))]
  }

  lemma OnLoggersSound(c: LoggerCall, held: seq<Held>)
    requires Below(held, 2)
    ensures Sound(OnLoggers(c), held)
  {
    hide GetLogger, Log, SetFormatter, AddAppender, DropAppenders, ToYamlStr, SetOwnLayout;
    match c
    case CallGetLogger => GetLoggerSound(held);
    case CallLog(logging) => LogSound(logging, held);
    case CallSetFormatter(g, attached) => SetFormatterSound(g, attached, held);
    case CallAddAppender(g, id, inherits) => AddSound(g, id, inherits, held);
    case CallDropAppenders(g) => DropSound(g, held);
    case CallToYamlStr(g, ids) => ToYamlSound(g, ids, held);
    case CallSetOwnLayout(a) => LayoutSound(a, held);
    case CallSetLevel(_) =>
    case CallGetFormatter(_) =>
    case CallSetThreshold(_) =>
  }

  function AllOnLoggers(calls: seq<LoggerCall>): seq<Block> {
    Join(seq(|calls|, i requires 0 <= i < |calls| => OnLoggers(calls[i])))
  }

  lemma AllOnLoggersSound(calls: seq<LoggerCall>, held: seq<Held>)
    requires Below(held, 2)
    ensures Sound(AllOnLoggers(calls), held)
  {
    hide OnLoggers, Sound;
    forall i | 0 <= i < |calls| ensures Sound(OnLoggers(calls[i]), held) {
      OnLoggersSound(calls[i], held);
    }
    JoinSound(seq(|calls|, i requires 0 <= i < |calls| => OnLoggers(calls[i])), held);
  }

  // ---- Listeners ------------------------------------------------------------------------------

  datatype NewAppender = NewAppender(id: nat, own: bool)
  datatype Redefinition =
    | Define(name: string, notice: RootLogging, reformatted: Option<seq<Attachment>>, appenders: seq<NewAppender>)
    | Remove(name: string, notice: RootLogging)

  function BuildAppender(name: string, a: NewAppender): seq<Block> {
    (if a.own then SetOwnLayout(a.id) else []) + AddAppender(ByName(name), a.id, !a.own)
  }

  function BuildAppenders(name: string, appenders: seq<NewAppender>): seq<Block> {
    Join(seq(|appenders|, i requires 0 <= i < |appenders| => BuildAppender(name, appenders[i])))
  }

  function Redefine(d: Redefinition): seq<Block> {
    var g := ByName(d.name);
    RootLog(d.notice) + (GetLogger() + ([Write(Level(g))] +
    match d
    case Remove(_, _) => DropAppenders(g)
    case Define(name, _, reformatted, appenders) =>
      (if reformatted.Some? then SetFormatter(g, reformatted.value) else [])
      + (DropAppenders(g) + BuildAppenders(name, appenders))))
  }

  function RedefineAll(ds: seq<Redefinition>): seq<Block> {
    Join(seq(|ds|, i requires 0 <= i < |ds| => Redefine(ds[i])))
  }

  lemma BuildSound(name: string, appenders: seq<NewAppender>, held: seq<Held>)
    requires Below(held, 3)
    ensures Sound(BuildAppenders(name, appenders), held)
  {
    hide Sound;
    forall i | 0 <= i < |appenders| ensures Sound(BuildAppender(name, appenders[i]), held) {
      var a := appenders[i];
      LayoutSound(a.id, held);
      AddSound(ByName(name), a.id, !a.own, held);
      SoundNil(held);
      Concat(if a.own then SetOwnLayout(a.id) else [], AddAppender(ByName(name), a.id, !a.own), held);
    }
    JoinSound(seq(|appenders|, i requires 0 <= i < |appenders| => BuildAppender(name, appenders[i])), held);
  }

  lemma SoundNil(held: seq<Held>)
    ensures Sound([], held)
  {
  }

  lemma RedefineSound(d: Redefinition, held: seq<Held>)
    requires Below(held, 2)
    ensures Sound(Redefine(d), held)
  {
    hide RootLog, GetLogger, SetFormatter, DropAppenders, BuildAppenders, Sound;
    var g := ByName(d.name);
    RootLogSound(d.notice, held);
    GetLoggerSound(held);
    DropSound(g, held);
    assert Sound([Write(Level(g))], held) by { SetLevelSound(g, held); }
    var rest := DropAppenders(g);
    if d.Define? {
      BuildSound(d.name, d.appenders, held);
      Concat(DropAppenders(g), BuildAppenders(d.name, d.appenders), held);
      var again := if d.reformatted.Some? then SetFormatter(g, d.reformatted.value) else [];
      SoundNil(held);
      if d.reformatted.Some? {
        SetFormatterSound(g, d.reformatted.value, held);
      }
      rest := again + (DropAppenders(g) + BuildAppenders(d.name, d.appenders));
      Concat(again, DropAppenders(g) + BuildAppenders(d.name, d.appenders), held);
    }
    Concat([Write(Level(g))], rest, held);
    Concat(GetLogger(), [Write(Level(g))] + rest, held);
    Concat(RootLog(d.notice), GetLogger() + ([Write(Level(g))] + rest), held);
  }

  lemma SetLevelSound(g: Logger, held: seq<Held>)
    ensures Sound([Write(Level(g))], held)
  {
  }

  /** A listener: that of the "logs" variable, or one of the program's that makes calls on loggers. */
  datatype Listener = LogsListener(definitions: seq<Redefinition>) | UserListener(calls: seq<LoggerCall>)

  function Notify(l: Listener): seq<Block> {
    match l
    case LogsListener(ds) => RedefineAll(ds)
    case UserListener(calls) => AllOnLoggers(calls)
  }

  function NotifyAll(ls: seq<Listener>): seq<Block> {
    Join(seq(|ls|, i requires 0 <= i < |ls| => Notify(ls[i])))
  }

  lemma RedefineAllSound(ds: seq<Redefinition>, held: seq<Held>)
    requires Below(held, 2)
    ensures Sound(RedefineAll(ds), held)
  {
    hide Redefine, Sound;
    forall i | 0 <= i < |ds| ensures Sound(Redefine(ds[i]), held) {
      RedefineSound(ds[i], held);
    }
    JoinSound(seq(|ds|, i requires 0 <= i < |ds| => Redefine(ds[i])), held);
  }

  lemma NotifyAllSound(ls: seq<Listener>, held: seq<Held>)
    requires Below(held, 2)
    ensures Sound(NotifyAll(ls), held)
  {
    hide RedefineAll, AllOnLoggers, Sound;
    forall i | 0 <= i < |ls| ensures Sound(Notify(ls[i]), held) {
      match ls[i]
      case LogsListener(ds) => RedefineAllSound(ds, held);
      case UserListener(calls) => AllOnLoggersSound(calls, held);
    }
    JoinSound(seq(|ls|, i requires 0 <= i < |ls| => Notify(ls[i])), held);
  }

  // ---- Variables and the registry -------------------------------------------------------------

  /** setValue: nothing more when the value is the one stored, else the listeners under the read
      lock and the store under a write lock taken afterwards. */
  function SetValue(v: string, changes: Option<seq<Listener>>): seq<Block> {
    match changes
    case None => [Region(Variable(v), Shared, [Read(Value(v))])]
    case Some(ls) =>
      [Region(Variable(v), Shared, [Read(Value(v)), Read(Listeners(v))] + NotifyAll(ls))]
      + [Region(Variable(v), Exclusive, [Write(Value(v))])]
  }

  function GetValue(v: string): seq<Block> {
    [Region(Variable(v), Shared, [Read(Value(v))])]
  }

  /** toString and fromString report a failed conversion to the root logger, with no lock of the
      variable held any more. */
  function ToString(v: string, failure: Option<RootLogging>): seq<Block> {
    GetValue(v) + if failure.Some? then RootLog(failure.value) else []
  }

  function AddListener(v: string, typeName: string): seq<Block> {
    [Region(Variable(v), Exclusive, [Read(NextKey(typeName)), Write(Listeners(v)), Write(NextKey(typeName))])]
  }

  // delListener and clearListener.
  function DropListeners(v: string): seq<Block> {
    [Region(Variable(v), Exclusive, [Write(Listeners(v))])]
  }

  function GetListener(v: string): seq<Block> {
    [Region(Variable(v), Shared, [Read(Listeners(v))])]
  }

  function LookupBase(): seq<Block> {
    [Region(Registry, Shared, [Read(Variables)])]
  }

  datatype Assignment = Unknown | Unparsed(report: RootLogging) | Assigned(name: string, changes: Option<seq<Listener>>)

  function Assign(a: Assignment): seq<Block> {
    LookupBase()
    + match a
      case Unknown => []
      case Unparsed(report) => RootLog(report)
      case Assigned(v, changes) => SetValue(v, changes)
  }

  datatype Found =
    | Exists(notice: RootLogging)
    | OtherType(name: string, failure: Option<RootLogging>, notice: RootLogging)
    | Created
    | BadName(notice: RootLogging)

  function InLookup(f: Found): seq<Block> {
    match f
    case Exists(notice) => RootLog(notice)
    case OtherType(v, failure, notice) => ToString(v, failure) + RootLog(notice)
    case Created => [Write(Variables)]
    case BadName(notice) => RootLog(notice)
  }

  /** A Visit callback that prints the variable and makes calls on loggers. */
  datatype Visited = Visited(name: string, failure: Option<RootLogging>, calls: seq<LoggerCall>)

  function VisitOne(v: Visited): seq<Block> {
    ToString(v.name, v.failure) + AllOnLoggers(v.calls)
  }

  function Lookup(f: Found): seq<Block> {
    [Region(Registry, Exclusive, [Read(Variables)] + InLookup(f))]
  }

  function RootLogs(gs: seq<RootLogging>): seq<Block> {
    Join(seq(|gs|, i requires 0 <= i < |gs| => RootLog(gs[i])))
  }

  function AssignAll(assignments: seq<Assignment>): seq<Block> {
    Join(seq(|assignments|, i requires 0 <= i < |assignments| => Assign(assignments[i])))
  }

  function LoadFromYaml(bad: seq<RootLogging>, assignments: seq<Assignment>): seq<Block> {
    RootLogs(bad) + AssignAll(assignments)
  }

  function Visits(visited: seq<Visited>): seq<Block> {
    Join(seq(|visited|, i requires 0 <= i < |visited| => VisitOne(visited[i])))
  }

  function Visit(visited: seq<Visited>): seq<Block> {
    [Region(Registry, Shared, [Read(Variables)] + Visits(visited))]
  }

  lemma VariableSound(v: string, typeName: string, held: seq<Held>)
    requires Below(held, 1)
    ensures Sound(GetValue(v), held) && Sound(AddListener(v, typeName), held)
    ensures Sound(DropListeners(v), held) && Sound(GetListener(v), held)
    ensures Sound([Region(Variable(v), Exclusive, [Write(Value(v))])], held)
  {
    var on := Variable(v);
    Under(held, on, Shared, Value(v), false);
    Under(held, on, Exclusive, Value(v), true);
    Under(held, on, Shared, Listeners(v), false);
    Under(held, on, Exclusive, Listeners(v), true);
    Enter(on, Shared, [Read(Value(v))], held);
    Enter(on, Exclusive, [Write(Value(v))], held);
    Enter(on, Exclusive, [Read(NextKey(typeName)), Write(Listeners(v)), Write(NextKey(typeName))], held);
    Enter(on, Exclusive, [Write(Listeners(v))], held);
    Enter(on, Shared, [Read(Listeners(v))], held);
  }

  lemma SetValueSound(v: string, changes: Option<seq<Listener>>, held: seq<Held>)
    requires Below(held, 1)
    ensures Sound(SetValue(v, changes), held)
  {
    hide NotifyAll;
    VariableSound(v, "", held);
    if changes.Some? {
      var ls := changes.value;
      var inside := held + [Held(Variable(v), Shared)];
      NotifyAllSound(ls, inside);
      Under(held, Variable(v), Shared, Value(v), false);
      Under(held, Variable(v), Shared, Listeners(v), false);
      Concat([Read(Value(v)), Read(Listeners(v))], NotifyAll(ls), inside);
      Enter(Variable(v), Shared, [Read(Value(v)), Read(Listeners(v))] + NotifyAll(ls), held);
      Concat([Region(Variable(v), Shared, [Read(Value(v)), Read(Listeners(v))] + NotifyAll(ls))],
             [Region(Variable(v), Exclusive, [Write(Value(v))])], held);
    }
  }

  lemma ToStringSound(v: string, failure: Option<RootLogging>, held: seq<Held>)
    requires Below(held, 1)
    ensures Sound(ToString(v, failure), held)
  {
    hide RootLog, GetValue;
    VariableSound(v, "", held);
    if failure.Some? {
      RootLogSound(failure.value, held);
      Concat(GetValue(v), RootLog(failure.value), held);
    }
  }

  lemma RegistrySound(mode: Mode, body: seq<Block>)
    requires Sound(body, [Held(Registry, mode)])
    ensures Sound([Region(Registry, mode, [Read(Variables)] + body)], [])
  {
    assert [] + [Held(Registry, mode)] == [Held(Registry, mode)];
    Under([], Registry, mode, Variables, false);
    Concat([Read(Variables)], body, [Held(Registry, mode)]);
    Enter(Registry, mode, [Read(Variables)] + body, []);
  }

  lemma LookupBaseSound()
    ensures Sound(LookupBase(), [])
  {
    assert [Read(Variables)] + [] == [Read(Variables)];
    RegistrySound(Shared, []);
  }

  lemma AssignSound(a: Assignment)
    ensures Sound(Assign(a), [])
  {
    hide RootLog, SetValue, LookupBase, Sound;
    LookupBaseSound();
    SoundNil([]);
    match a
    case Unknown => Concat(LookupBase(), [], []);
    case Unparsed(report) =>
      RootLogSound(report, []);
      Concat(LookupBase(), RootLog(report), []);
    case Assigned(v, changes) =>
      SetValueSound(v, changes, []);
      Concat(LookupBase(), SetValue(v, changes), []);
  }

  lemma LookupSound(f: Found)
    ensures Sound(Lookup(f), [])
  {
    hide RootLog, ToString;
    var held := [Held(Registry, Exclusive)];
    match f {
      case Exists(notice) => RootLogSound(notice, held);
      case OtherType(v, failure, notice) =>
        ToStringSound(v, failure, held);
        RootLogSound(notice, held);
        Concat(ToString(v, failure), RootLog(notice), held);
      case Created => assert Protected(held, Variables, true) by { Under([], Registry, Exclusive, Variables, true); }
      case BadName(notice) => RootLogSound(notice, held);
    }
    RegistrySound(Exclusive, InLookup(f));
  }

  lemma RootLogsSound(gs: seq<RootLogging>, held: seq<Held>)
    requires Below(held, 4)
    ensures Sound(RootLogs(gs), held)
  {
    hide RootLog, Sound;
    forall i | 0 <= i < |gs| ensures Sound(RootLog(gs[i]), held) {
      RootLogSound(gs[i], held);
    }
    JoinSound(seq(|gs|, i requires 0 <= i < |gs| => RootLog(gs[i])), held);
  }

  lemma LoadSound(bad: seq<RootLogging>, assignments: seq<Assignment>)
    ensures Sound(LoadFromYaml(bad, assignments), [])
  {
    hide RootLogs, Assign, Sound;
    RootLogsSound(bad, []);
    forall i | 0 <= i < |assignments| ensures Sound(Assign(assignments[i]), []) {
      AssignSound(assignments[i]);
    }
    JoinSound(seq(|assignments|, i requires 0 <= i < |assignments| => Assign(assignments[i])), []);
    Concat(RootLogs(bad), AssignAll(assignments), []);
  }

  lemma VisitsSound(visited: seq<Visited>, held: seq<Held>)
    requires Below(held, 1)
    ensures Sound(Visits(visited), held)
  {
    hide ToString, AllOnLoggers, Sound;
    forall i | 0 <= i < |visited| ensures Sound(VisitOne(visited[i]), held) {
      ToStringSound(visited[i].name, visited[i].failure, held);
      AllOnLoggersSound(visited[i].calls, held);
      Concat(ToString(visited[i].name, visited[i].failure), AllOnLoggers(visited[i].calls), held);
    }
    JoinSound(seq(|visited|, i requires 0 <= i < |visited| => VisitOne(visited[i])), held);
  }

  lemma VisitSound(visited: seq<Visited>)
    ensures Sound(Visit(visited), [])
  {
    hide Visits;
    VisitsSound(visited, [Held(Registry, Shared)]);
    RegistrySound(Shared, Visits(visited));
  }

  // ---- All calls ------------------------------------------------------------------------------

  datatype Call =
    | CallLookup(found: Found)
    | CallLookupBase
    | CallLoadFromYaml(badNames: seq<RootLogging>, assignments: seq<Assignment>)
    | CallVisit(visited: seq<Visited>)
    | CallToString(name: string, failure: Option<RootLogging>)
    | CallGetValue(name: string)
    | CallSetValue(name: string, changes: Option<seq<Listener>>)
    | CallAddListener(name: string, typeName: string)
    | CallDropListeners(name: string)
    | CallGetListener(name: string)
    | CallOnLoggers(call: LoggerCall)

  function Blocks(c: Call): seq<Block> {
    match c
    case CallLookup(found) => Lookup(found)
    case CallLookupBase => LookupBase()
    case CallLoadFromYaml(bad, assignments) => LoadFromYaml(bad, assignments)
    case CallVisit(visited) => Visit(visited)
    case CallToString(v, failure) => ToString(v, failure)
    case CallGetValue(v) => GetValue(v)
    case CallSetValue(v, changes) => SetValue(v, changes)
    case CallAddListener(v, typeName) => AddListener(v, typeName)
    case CallDropListeners(v) => DropListeners(v)
    case CallGetListener(v) => GetListener(v)
    case CallOnLoggers(call) => OnLoggers(call)
  }

  /** The calls that take the registry's lock. */
  predicate TakesRegistry(c: Call) {
    match c
    case CallLookup(_) => true
    case CallLookupBase => true
    case CallLoadFromYaml(_, assignments) => assignments != []
    case CallVisit(_) => true
    case _ => false
  }

  /** Every other call can be made by a thread that holds the registry. */
  lemma CallSoundUnder(c: Call, held: seq<Held>)
    requires Below(held, 1) && !TakesRegistry(c)
    ensures Sound(Blocks(c), held)
  {
    hide ToString, GetValue, SetValue, AddListener, DropListeners, GetListener, OnLoggers, RootLog, Sound;
    match c
    case CallToString(v, failure) => ToStringSound(v, failure, held);
    case CallGetValue(v) => VariableSound(v, "", held);
    case CallSetValue(v, changes) => SetValueSound(v, changes, held);
    case CallAddListener(v, typeName) => VariableSound(v, typeName, held);
    case CallDropListeners(v) => VariableSound(v, "", held);
    case CallGetListener(v) => VariableSound(v, "", held);
    case CallOnLoggers(call) => OnLoggersSound(call, held);
    case CallLoadFromYaml(bad, assignments) =>
      RootLogsSound(bad, held);
      SoundNil(held);
      Concat(RootLogs(bad), [], held);
  }

  /** Whatever a call decides, every lock it takes is ranked strictly above all locks it holds, and
      every guarded datum is used under its lock. */
  lemma CallSound(c: Call)
    ensures Sound(Blocks(c), [])
  {
    hide Lookup, LookupBase, LoadFromYaml, Visit, Sound;
    match c
    case CallLookup(found) => LookupSound(found);
    case CallLookupBase => LookupBaseSound();
    case CallLoadFromYaml(bad, assignments) => LoadSound(bad, assignments);
    case CallVisit(visited) => VisitSound(visited);
    case _ => CallSoundUnder(c, []);
  }
}

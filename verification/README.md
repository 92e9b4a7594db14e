# Verification of yecc's fibers, log patterns, configuration and loggers

A Dafny model of the four parts of yecc in which several functions, or several
threads, have to agree with each other, with proofs of what they promise. Verify it
with `dafny verify dfyconfig.toml`.

**Fibers** (`src/fiber.cpp`). `FiberMachine` is a machine over all threads: control
blocks with their shared-pointer counts, saved contexts with the program point and
the pointers living in suspended frames, the stack each thread really executes, the
thread-local `cur_fiber` and `last_s_fiber`, and the global counters. Whatever C++
would get wrong silently (a dead pointer, a freed stack in use, a context that
resumes the wrong code) is a fault of the machine, and so is a failed assertion.
`Legal` is the usage rule that the assertions and the tests imply. `FiberSafety`
proves that no legal run of any number of threads faults, `FiberTheorems` what holds
in every reachable state, `FiberBursts` what happens between a `swapIn` and its return,
however other commands interleave, `FiberReset` that a reset fiber cannot be told from
one that the constructor has made, and `FiberRuntime` that objects updated in place,
method by method, take exactly the machine's steps. A callback is a finite script of
work, yields and throws.

**Log patterns** (`src/log.cpp`). `Pattern` is the scanner with its two indices, and
the meaning of a pattern without indices; they agree on every pattern. `PatternGrammar`
has the grammar of well-formed patterns, the printer, both round trips, and a complete
description of what malformed patterns turn into. `LogFormatting` is the formatter
object, whose methods are proved against that meaning, and the laws of rendering;
`FormatCodes` says what each code prints, `PercentLaws` when `%%` stands for one percent
sign.

**Configuration** (`include/config.hpp`, `src/config.cpp`). `ConfigVars` is a variable
with its listeners, `YamlConfig` the registry and the loading of a YAML tree, `YamlNames`
the dotted names of its nodes, `ConfigRaces` concurrent `setValue` calls, each a phase
under the read lock that calls the listeners and a later one under the write lock that
stores; `LogsRaces` is what such calls on the `logs` variable do to the loggers.

**Loggers** (`src/log.cpp`). `Loggers` is what the logger operations and the listener
of the `logs` variable do to values, with the exact effect of one change and the exact
condition for the documented one; `LoggerRuntime` has the objects. `LockOrder` writes
down the locks each call of the library takes and the shared data it uses under them;
`LockTraces` says what that amounts to, operation by operation; `LockRuns` proves that no
mix of calls on any number of threads gets stuck, and which data are free of races;
`VisitCallbacks` has the exact conditions under which a `Visit` callback keeps that
promise; `ScopedGuards` is the guard classes of `include/thread.hpp`.

**Where the code does less than its documentation.** `ReadMe.md:196` says that every
added, modified and deleted definition is detected. The listener returns at the first
definition that is carried over unchanged (`src/log.cpp:612`), so later definitions
and all removals are skipped. `OnChangeExact` states what happens, `DetectedIff` when
that is what was promised, `MissedRemovalStays` what a skipped removal leads to.

**Facts about the code that the proofs make precise.** A `swapIn` called from a
callback passes every assertion and overwrites the way back to the thread's own code
(`NestedSwapInLosesMain`). `%%` after a well-formed pattern stands for one percent sign,
for every event, only where the pattern ends with it (`DoubledPercentIff`); elsewhere the
rest of the pattern is put out raw and scanned again from the second percent sign
(`DoubledPercentRenders`). A lone final `%` repeats the literal before it
(`EveryPattern`). A listener registered between the two phases of a concurrent
`setValue` never hears of the value stored next, and no later call makes up for it
(`LateListenerMissesChange`, `ChainIffIdleAtRegistration`). Of two overlapping calls one
can be told last and the other one stored (`OverlapLeavesOldNews`): what a listener was
told last is stored exactly where the call that told it last has stored last
(`LastNewsIff`), which callers ensure by not overlapping their calls (`SerialNews`). For
the `logs` variable the live loggers can so follow definitions that are not the stored
ones (`LoggersFollowOldNews`). A `Visit` callback that calls the creating
`Lookup` stops its thread for good under every lock policy. One that takes the registry's
lock to read does no harm as long as readers are let in whenever no writer holds the
lock, as glibc does by default; where waiting writers go first, it can stop two threads
(`SafeIffNoLookup`, `SafeIffAway`). Levels, an appender's flag for a formatter of its
own, the formatter a logger hands out, the time of a file's last use, and the counter that
`addListener` draws keys from are not guarded by any one lock; everything else that
threads share is free of races (`RaceFreeIffGuarded`). So keys are never reused in runs
where `addListener` calls on variables of one type do not overlap (`KeysIncrease`).

## Model

| member | source | states |
|---|---|---|
| FiberSafety.RunsAreSafe | src/fiber.cpp:32-159 | from any state meeting the invariant, every legal run of any threads in any order ends without a fault and meets it again |
| FiberSafety.StepKeeps | src/fiber.cpp:32-159 | each legal command keeps the invariant: counts, states, saved contexts, thread-local pointers, ids |
| FiberTheorems.NoFault | src/fiber.cpp:32-159 | no legal continuation of a reachable state fails an assertion, follows a dead pointer, frees a stack in use or resumes wrong code |
| FiberTheorems.ReferenceCount | src/fiber.cpp:107-159 | a fiber's count is its outside pointers plus two while suspended, one while its callback runs, none at rest; at rest no thread executes on its stack, no suspended frame is on it, and no live thread takes it for the current fiber |
| FiberTheorems.Destroyed | src/fiber.cpp:56-70 | a fiber is destroyed only as its last outside pointer is dropped or its thread ends; then the destructor's assertions hold, nobody uses its stack and no live thread's `cur_fiber` points to it |
| FiberTheorems.DropIs | src/fiber.cpp:56-70 | dropping a pointer takes one from the count and, with the last one, removes the fiber from the heap and the counter; nothing else changes |
| FiberTheorems.ThreadEnd | src/fiber.cpp:14 | a thread that ends gives up its pointer to its main fiber; if it was the last one that fiber is destroyed and `cur_fiber` cleared |
| FiberTheorems.CurrentFiber | src/fiber.cpp:87-128 | `cur_fiber` is the fiber whose stack executes; main stays EXEC; another fiber is EXEC exactly when current; a running fiber has a main fiber to return to |
| FiberTheorems.GetThisIs | src/fiber.cpp:107-115 | GetThis copies the pointer to the fiber whose stack executes, in the thread's own code that to its main fiber; the first call makes the main fiber: EXEC, id 0, two pointers to it, counted |
| FiberTheorems.ScriptOrder | src/fiber.cpp:87-102 | executed actions are a prefix of the script, all of it once TERM; HOLD and READY follow the yield of that kind; the callback is cleared exactly in TERM; k yields without a throw mean TERM at exactly the (k+1)-th swapIn; a throw ends the fiber on the swapIn after the yields before it |
| FiberTheorems.MainResumes | src/fiber.cpp:97-102 | the next action is the script's next and leaves the fiber EXEC, HOLD, READY, TERM or EXCEP as it asks; unless it is work the thread is back in its own code at the return of the matching swapIn, on its main fiber |
| FiberBursts.OthersDoNotMove | src/fiber.cpp:87-159 | no command of any thread but the callback's own next action changes what it executes or how far it is |
| FiberBursts.BurstEnds | src/fiber.cpp:87-159 | in any run of any threads, a running callback gives its thread back to the matching swapIn by the time it has taken the actions its script has left, plus its return |
| FiberBursts.OneBurst | src/fiber.cpp:87-159 | however other commands interleave with its actions, a callback without yields has ended, with its script or by its exception, when its first swapIn returns |
| FiberBursts.BurstRuns | src/fiber.cpp:87-159 | a running callback can always go on by itself to its next return to the swapIn: those actions are a legal run |
| FiberBursts.RunsToItsEnd | src/fiber.cpp:87-159 | from any state in which its thread is in its own code, a fiber somebody holds can be run to its end by swapping it in again and again |
| FiberBursts.SameWork | src/fiber.cpp:119-159 | whatever run a fiber ended in, a fiber of any other run with the same callback without yields, swapped in and not running, has ended the same way, done the same work, and all of it after one swapIn |
| FiberTheorems.CountersAndIds | src/fiber.cpp:130-138 | the count is the number of live fibers; callback ids are distinct and in 1..g_fiber_id; the current id is that of the fiber whose stack executes, and 0 in the thread's own code |
| FiberTheorems.NestedSwapInLosesMain | src/fiber.cpp:87-95 | swapIn from a callback passes all assertions, saves into main's context and so breaks the invariant |
| FiberTheorems.ResetLegalIff | src/fiber.cpp:72-74 | a held fiber may be reset exactly where the assertions of reset hold: a callback fiber that has not started or has ended |
| FiberReset.RunAlike | src/fiber.cpp:72-85 | two systems that hold the same fibers at other addresses, and one more that takes no part, allow the same commands and stay so in every run |
| FiberReset.ResetIsNew | src/fiber.cpp:41-85 | after reset, called on any thread, every run goes as if the constructor had made another fiber for that callback on the thread the fiber belongs to and as many pointers had been taken to it: same legal commands, same states; id, stack and counters are unchanged |
| FiberReset.MakingRun | src/fiber.cpp:41-55 | that other fiber is what the constructor and the copies of its pointer leave, wherever its thread can run them |
| FiberRuntime.Runtime.Release | src/fiber.cpp:56-70 | dropping a shared pointer on the objects is the machine's release, with destruction at zero |
| FiberRuntime.Runtime.SwapIn | src/fiber.cpp:87-95 | the objects do exactly the machine's swapIn |
| FiberRuntime.Runtime.SwapOut | src/fiber.cpp:97-102 | the objects do exactly the machine's swapOut |
| FiberRuntime.Runtime.Yield | src/fiber.cpp:119-128 | the objects do exactly the machine's yield |
| FiberRuntime.Runtime.GetThis | src/fiber.cpp:107-115 | the current fiber's pointer is copied, or a main fiber made and installed |
| FiberRuntime.Runtime.Construct | src/fiber.cpp:44-55 | a counted fiber in INIT with its own stack, its context at the entry |
| FiberRuntime.Runtime.Reset | src/fiber.cpp:72-85 | new callback, context at the entry, INIT; everything else as before |
| FiberRuntime.Runtime.Finish | src/fiber.cpp:144-158 | TERM or EXCEP, own pointer given up, then out for good |
| FiberRuntime.Runtime.RunCallback | src/fiber.cpp:140-159 | one action of the callback, or its return |
| FiberRuntime.Runtime.ExitThread | src/fiber.cpp:14 | the thread-local main pointer is destroyed at thread end |
| FiberRuntime.Runtime.Execute | src/fiber.cpp:32-159 | any legal command on the objects is the machine's step and keeps the invariant |
| Pattern.ScanIsDenote | src/log.cpp:369-401 | on every pattern, malformed or not, the two-index scan computes the index-free meaning |
| Pattern.OnePass | src/log.cpp:370-396 | a pass keeps 0 <= last_idx <= len and last_idx <= i+1 and moves on, so every substr starts in range |
| Pattern.HeadAdvances | src/log.cpp:370-396 | the scan is over after at most len passes |
| Pattern.NegativeCount | src/log.cpp:372-375 | the literal's length is negative exactly when the pass before was at an adjacent percent sign |
| PatternGrammar.LexSpells | src/log.cpp:369-401 | cutting a pattern into tokens stops only where no token starts; the tokens spell what was read |
| PatternGrammar.WellFormedIffSpelled | src/log.cpp:369-401 | the well-formed patterns are exactly the spellings of well-formed token lists |
| PatternGrammar.ParsePrint | src/log.cpp:369-401 | scanning a printed list of literals and directives gives that list, arguments with percent signs included |
| PatternGrammar.PrintParse | src/log.cpp:369-401 | printing the scan of a well-formed pattern gives it back character for character exactly when it has no redundant empty braces |
| PatternGrammar.SpansCover | src/log.cpp:369-401 | the source spans of the scanned rows, in order, are the pattern |
| PatternGrammar.EveryPattern | src/log.cpp:369-401 | what any pattern scans to: its longest well-formed beginning as written, then one of three broken ends |
| LogFormatting.LogFormatter.ParseTable | src/log.cpp:365-401 | the loop's parse table is the meaning of the pattern |
| LogFormatting.LogFormatter.Init | src/log.cpp:403-439 | one item per row; in error exactly if some directive is unknown |
| LogFormatting.LogFormatter.Format | src/log.cpp:206-221 | formatting an event renders the pattern's meaning |
| FormatCodes.EachCode | src/log.cpp:405-420 | what each of the twelve codes prints, with an argument and without: its field of the event, a line end, a tab; only the time looks at its argument |
| FormatCodes.OtherCode | src/log.cpp:424-438 | every other character after a percent sign, with an argument or without, prints `<error type>` |
| FormatCodes.DefaultPattern | src/log.cpp:38-46 | what a new logger's pattern prints, field by field |
| LogFormatting.RenderAppend | src/log.cpp:206-221 | after a well-formed pattern any pattern renders as alone, except exactly when a final literal meets literal text with a lone final percent sign |
| LogFormatting.DoubledPercentAtEnd | src/log.cpp:378-381 | a well-formed pattern followed by two percent signs renders as itself and one percent sign |
| LogFormatting.DoubledPercentRenders | src/log.cpp:372-381 | anywhere else the rest is put out raw and then scanned again from the second percent sign |
| PercentLaws.DoubledPercentIff | src/log.cpp:372-381 | after a well-formed pattern two percent signs stand for one, for every event, if and only if nothing follows them |
| LogFormatting.ErrorIffUnknownToken | src/log.cpp:424-438 | a well-formed pattern is in error exactly when it contains a directive outside the code table |
| ConfigVars.ConfigVar.SetValue | include/config.hpp:273-283 | nothing on an equal value; else every listener once, in key order, with old and new, then the store |
| ConfigVars.ToldInOrder | include/config.hpp:273-283 | a change is told to exactly the registered listeners, in strictly increasing order of their keys, with the value before and the value after |
| ConfigVars.ConfigVar.FromString | include/config.hpp:255-268 | false and unchanged when the text does not parse, else setValue |
| ConfigVars.ConfigVar.ToString | include/config.hpp:243-254 | the converted value, or an empty string when the conversion throws; nothing changes |
| ConfigVars.ConfigVar.AddListener | include/config.hpp:286-291 | the key is the type's next, the listener is last |
| ConfigVars.ConfigVar.DelListener | include/config.hpp:292-295 | the listener with that key is gone and exactly the others are left |
| ConfigVars.ConfigVar.GetListener | include/config.hpp:300-305 | a listener is found exactly when the key is registered, and it is that key's |
| ConfigVars.ListenerChain | include/config.hpp:255-299 | while registered, a listener hears an unbroken chain of real changes from the value it started with to the current one |
| ConfigVars.ListenerLife | include/config.hpp:286-299 | over its whole life, whatever happens after removal, it hears one chain from registration to removal |
| ConfigVars.SilentAfterRemoval | include/config.hpp:292-299 | an unregistered key is never used or called again |
| ConfigVars.KeysIncrease | include/config.hpp:286-291 | of two registrations in one value type the later gets the greater key |
| ConfigRaces.StoredWasAnnounced | include/config.hpp:273-283 | from a new variable on, under any interleaving, the stored value is the default or one its call has told every listener registered in its read phase |
| ConfigRaces.ChainIffSerial | include/config.hpp:273-291 | what a listener registered while no call was under way hears is an unbroken chain to the value stored when none is again, if and only if from then on no call with something to change began during another one |
| ConfigRaces.ChainIffIdleAtRegistration | include/config.hpp:273-291 | where no two calls overlap at all, the chain from the value at registration is unbroken if and only if no call was under way at the registration; no later call repairs it |
| ConfigRaces.LastNewsIff | include/config.hpp:273-283 | under any interleaving of calls that each bring a new value, the value a listener was told last is the stored one if and only if the call that told it last is the one that stored last |
| ConfigRaces.CallAlone | include/config.hpp:273-283 | a call that no other overlaps has exactly the effect of setValue without concurrency |
| ConfigRaces.LastNewsOfTheWriter | include/config.hpp:273-283 | whatever the values, the value told last is the stored one where the call that told it last has stored last |
| ConfigRaces.SerialNews | include/config.hpp:273-291 | where no call with something to change begins during another one, a listener registered while none was under way was told last what is stored |
| ConfigRaces.OverlapLeavesOldNews | include/config.hpp:273-283 | on any variable with a listener, two overlapping calls with any two values can store one and have told the other last |
| ConfigRaces.LateListenerMissesChange | include/config.hpp:273-291 | a listener added between the phases of a call is not told of the change stored next |
| LogsRaces.LoggersFollowOldNews | src/log.cpp:594-643 | two overlapping calls on the logs variable can store one list of definitions while the live loggers are set up as the other one says, for any two lists of which the latter carries nothing over |
| YamlConfig.ListAllMember | src/config.cpp:6-25 | appends exactly the specified list |
| YamlConfig.PositionsOk | src/config.cpp:16-24 | the listed nodes are all nodes reachable through maps, each once, in document order |
| YamlConfig.ListsPositions | src/config.cpp:16-24 | each listed under the name that the way to it gives, whatever prefix the listing starts with |
| YamlNames.NameIs | src/config.cpp:16-24 | empty keys at the start add nothing to a name; cut at its dots, it is the other keys on the way, in order, each cut at its own dots |
| YamlNames.DottedNames | src/config.cpp:16-24 | where no key is empty or has a dot, cutting a listed name at its dots gives exactly the keys on the way to its node, in order |
| YamlNames.NamesTellApart | src/config.cpp:16-24 | two nodes reached by such keys have one name exactly when they have the same keys |
| YamlNames.NodeSets | src/config.cpp:27-45 | a node reached by keys that are, in any letter case, the parts of a variable's name gives the variable its text, or the node emitted if it is no scalar, unless a later node has that name |
| YamlConfig.LastNodeWins | src/config.cpp:27-45 | after a load a variable has the value of the last node in the document under its name that parses, else its old one |
| YamlConfig.LoadChain | src/config.cpp:27-45 | its listeners hear the changes of one load as an unbroken chain |
| YamlConfig.ValidNameIsLower | include/config.hpp:340-345 | names that may be registered are unchanged by lower-casing, so loading reaches every variable |
| YamlNames.ValidNameIff | include/config.hpp:340-345 | the valid names are those of small letters, digits, dots and underscores |
| YamlNames.LowerIs | src/config.cpp:33 | exactly the capitals change, each to the small letter 32 places on |
| YamlConfig.Config.LoadFromYaml | src/config.cpp:27-45 | every registered variable and its listeners' calls go through the listed nodes in order; the registry is unchanged |
| YamlConfig.Config.LookupOrCreate | include/config.hpp:318-349 | existing variable, wrong type, invalid name or a new variable with the default, and the line logged in each case; the first registration wins |
| Loggers.AddKeepsIff | src/log.cpp:67-75 | adding an appender keeps the formatter rule exactly when it has its own, none yet, or the logger's |
| Loggers.AlwaysInherits | src/log.cpp:67-103 | over any run adding fresh appenders, each without its own formatter uses the logger's current one |
| Loggers.OwnVerbatim | src/log.cpp:67-103 | over any run of logger operations an attached appender with its own formatter is, unchanged, one that was there or was added |
| Loggers.LessTotal | src/log.cpp:481-484 | names unordered both ways are equal, so the set finds the definition of the same name |
| Loggers.LessIs | src/log.cpp:481-484 | the order is alphabetical: where two names first differ, the one that ends there or has the smaller character comes first |
| Loggers.FindIs | src/log.cpp:598 | looking a member of the set up by name finds it |
| Loggers.SetOfIs | include/config.hpp:109-122 | the set built from a list is in alphabetical order and has exactly the first listed definition of each name |
| Loggers.OnChangeExact | src/log.cpp:594-643 | the logger of each name after a change: configured if its definition comes before the first unchanged one, silenced if gone and none was unchanged, else as it was |
| Loggers.NoticesAre | src/log.cpp:597-641 | which lines are logged, in which order: added or modified for each definition before the first unchanged one, deleted for each name that is gone if there is none |
| Loggers.DetectedIff | src/log.cpp:612 | every change takes effect, whatever loggers are live, exactly when nothing was left to do after the first unchanged definition |
| Loggers.ConfigureIs | src/log.cpp:613-631 | what a definition makes of a logger: level, formatter unless empty, exactly its appenders in order, each from level 1 on unless it names one |
| Loggers.RemovedStaysSilent | src/log.cpp:633-642 | a removal that is carried out leaves the logger at level 100 without appenders, silent also through root, until a definition names it again |
| Loggers.MissedRemovalStays | src/log.cpp:612-642 | a removal that is skipped is never made up for |
| Loggers.SilencedDeliversNothing | src/log.cpp:50-65 | level 100 without appenders lets no event through, not to root either |
| LoggerRuntime.Logger.AddAppender | src/log.cpp:67-75 | the appender is last in the list, attached before or not; one without a formatter gets this logger's object; the view takes the specified step |
| LoggerRuntime.Logger.DelAppender | src/log.cpp:76-79 | every occurrence of the appender goes, the others, given by their places, stay in order |
| LoggerRuntime.Logger.SetFormatterObject | src/log.cpp:85-91 | every appender without its own formatter gets the new one, the others keep theirs |
| LoggerRuntime.Logger.SetFormatterString | src/log.cpp:92-103 | the same with a formatter compiled from the string |
| LoggerRuntime.Logger.LogEvent | src/log.cpp:50-65 | below the logger's level nothing is written; else its own appenders at or below the event's level write, in order, once for each time they are attached; without appenders the root's do by the same rule; each in its own format |
| LoggerRuntime.Logger.Configure | src/log.cpp:613-631 | the listener's body for one definition, on the object, whatever is attached before; afterwards every appender and the logger have compiled formatters |
| LoggerRuntime.LogAppender.SetFormatterString | src/log.cpp:153-162 | a formatter from a string is the appender's own |
| LoggerRuntime.LoggerManager.GetLogger | src/log.cpp:448-456 | the logger of the name, made with its name and root on first use; every other logger as before, shared appenders or not |
| LoggerRuntime.LoggerManager.LogByName | include/log.hpp:16-49 | the same through a name, in whatever way the loggers were reconfigured before; a name nobody has used logs through root from level 1 on |
| LoggerRuntime.LoggerManager.OnLogsChanged | src/log.cpp:594-643 | the listener, on the live objects, has the specified effect, early return included: exactly where no appender is attached twice, and else up to the formatters that a shared appender has none of its own for; formatters stay compiled; it logs one line for each definition applied, as new or as modified, then one for each removed |
| LockOrder.CallSound | include/config.hpp:243-367 | whatever any call decides, every lock it takes ranks strictly above all it holds (registry, variable, manager, named logger, root logger, appender), and every guarded datum is used under its lock; what it takes and uses is what `LockTraces` says |
| LockOrder.LoadSound | src/config.cpp:27-45 | so does a whole load, with listeners that redefine loggers or make any calls on them |
| LockOrder.VisitSound | src/config.cpp:47-53 | so does a Visit whose callbacks print and make any calls on loggers, under the registry's read lock |
| LockOrder.LogSound | src/log.cpp:50-65 | so does logging through any logger, appenders and the way through root included |
| LockOrder.RedefineSound | src/log.cpp:597-642 | so does the listener of the logs variable, under whatever is held below the manager |
| LockTraces.SetValueTrace | include/config.hpp:273-283 | setValue reads the value and the listeners and makes all their calls under the read lock, gives it back, and stores under the write lock; with the stored value it only reads |
| LockTraces.ToldTrace | src/log.cpp:594-643 | the listeners, that of the logs variable included, do exactly the calls on loggers that the source makes, in its order |
| LockTraces.ListenersTrace | include/config.hpp:286-305 | addListener, delListener, clearListener and getListener, operation by operation |
| LockTraces.ToStringTrace | include/config.hpp:243-254 | toString reads under the read lock and reports a failure after giving it back |
| LockTraces.LookupTrace | include/config.hpp:318-349 | the creating Lookup in its four cases, all under the write lock; only a new valid name writes the registry |
| LockTraces.LookupBaseTrace | include/config.hpp:352-367 | the Lookup that only reads, and LookupBase, take the read lock and read the registry once |
| LockTraces.LoadTrace | src/config.cpp:6-45 | a load reports bad names first, then looks each node up and sets or reports, holding no lock in between |
| LockTraces.VisitTrace | src/config.cpp:47-53 | a Visit makes its callbacks' calls under the registry's read lock |
| LockTraces.LogTrace | src/log.cpp:50-65 | logging looks at the level first and then hands the event to every appender, in order, under the logger's lock |
| LockTraces.QuietTrace | src/log.cpp:50-51 | below its level a logger looks at its level and does nothing else |
| LockTraces.HandedOnTrace | src/log.cpp:50-65 | a named logger without appenders does all that root's logging does while it holds its own lock |
| LockTraces.SinkTrace | src/log.cpp:169-199 | what an appender does with an event: its level, for a file its last second and perhaps a reopening under the lock, then its formatter and the output under the lock |
| LockTraces.AddAppenderTrace | src/log.cpp:67-75 | addAppender asks the appender for its formatter, perhaps gives it the logger's, and then attaches it, under the logger's lock |
| LockTraces.SetFormatterTrace | src/log.cpp:92-103 | setFormatter gives every appender without one of its own the formatter, in order, and then keeps it |
| LockTraces.ToYamlStrTrace | src/log.cpp:572-588 | toYamlStr reads the level without the lock and all the rest under it |
| LockTraces.SimpleTraces | src/log.cpp:76-83 | getLogger, setLevel, getFormatter, delAppender and the setters of an appender, operation by operation |
| LockRuns.ProgramDisciplined | include/thread.hpp:29-108 | a thread's operations release in reverse order, climb, respect the guards and end with nothing held |
| LockRuns.NeverStuck | include/thread.hpp:111-183 | in every reachable state of any threads with work left some thread can step, even when readers queue behind waiting writers |
| LockTraces.GuardHeld | include/thread.hpp:29-183 | in every reachable state a thread about to use a guarded datum holds its lock, and about to write it no other thread does |
| LockTraces.StoresExclusively | include/config.hpp:273-283 | in every run, every setValue that changes something makes its store, with the variable's lock held exclusively and by no other thread |
| LockRuns.RunsEnd | include/thread.hpp:111-183 | every run is finite, and where it cannot go on every thread has finished and holds no lock |
| LockRuns.RaceFreeIffGuarded | include/log.hpp:171-213 | two threads can be about to use a datum at once, one writing, exactly when no lock guards it |
| LockRuns.KeysRace | include/config.hpp:286-291 | listeners added to two variables of one type can race on the shared key counter, each under its own variable's lock |
| LockRuns.WaitsForever | include/thread.hpp:111-183 | a thread that asks for a lock it holds, unless both times to read, never steps again in any run, under any lock policy |
| VisitCallbacks.SafeIffAway | src/config.cpp:47-53 | where readers wait for waiting writers, a Visit never brings threads to a standstill if and only if its callbacks make no call that takes the registry's lock |
| VisitCallbacks.SafeIffNoLookup | src/config.cpp:47-53 | where readers are let in whenever no writer holds the lock, if and only if its callbacks do not call the creating Lookup |
| ScopedGuards.AlwaysBalanced | include/thread.hpp:29-108 | for any lock() and unlock() calls the mutex is never acquired twice in a row or released while free, and ends free |
| ScopedGuards.Scope | include/thread.hpp:29-108 | a guard's whole life makes exactly these requests |

## Left out

- Scheduler: `src/scheduler.cpp` consists of stubs.
- yaml-cpp and boost conversions, container `LexicalCast`s included: YAML is an ordered tree, emitting a node is a parameter, each `FromStr` is a partial function; definitions arrive parsed, with appender types 1 and 2 (`src/log.cpp:497-509`).
- ucontext, malloc, pthread: only their effect (save and restore a program point, one stack per fiber, acquire and release). Allocation failure and stack overflow do not occur.
- Integer widths: ids, counts, keys and the scanner's `int` indices are unbounded, so the wrap of a 64-bit counter, the truncation to 32 bits in `src/util.cpp:14`, and patterns of 2^31 characters are not modelled.
- Output and time: what is written is a value; `FileAppender::reopen`, `strftime`, thread ids and the text of each format item are parameters of the event.
- Messages of failed conversions (`include/config.hpp:248-251`, `include/config.hpp:263-266`) and of bad names in a document (`src/config.cpp:11-15`): only their locks, in `LockOrder`.
- Thread creation, join and detach (`src/thread.cpp`).
- Use of fibers outside the usage rule: `swapIn` on a finished fiber, yielding from the main fiber, moving a fiber to another thread, calling `swapOut` or `SetThis` directly, and `GetThis` after the main fiber has been destroyed.
- Listeners that throw, set the variable that notifies them or use other variables; in `LockOrder` they make any calls on loggers.
- YamlConfig.Config.LookupOrCreate: the registry holds variables of one value type at a time; a variable of another type is known only by the failing cast and its type's name.
- ConfigRaces.StoredWasAnnounced: each phase is atomic up to single listener calls; that the phases hold the locks they need is read off the code, and that the locks are granted as assumed is their semantics in `LockRuns`.
- LockRuns.RunsEnd: a thread's calls, and what each finds attached or registered, are chosen before the run, for all choices; that one thread's call changes what another finds is not modelled.
- LoggerRuntime.LoggerManager.OnLogsChanged: where callers have attached one appender to several loggers, the formatter it takes from one of them in another one's view is left open; levels, the appenders' order, and formatters of their own are exact.
- FiberRuntime.Runtime.SwapIn: the objects of this module follow runs without faults; what a faulting call does is only in the machine.
- LockRuns.RaceFreeIffGuarded: covers the data listed in `LockOrder.Datum`; the root pointer a logger gets before it is published, and objects only one thread knows yet, are not among them.
- `getFormatter`, `HasFormatter`, the level name table, the singleton and the assertion macros: one-line accessors.

# PhasicJ, modelled and verified

PhasicJ is an agent for the Java virtual machine that reports monitor events. It rewrites classes as they are loaded, so
that a static call to a handler comes before every MONITORENTER and MONITOREXIT; it grafts the handler onto
`java/lang/Object`; at run time a volatile flag, two atomic counters, a mutex-guarded channel and a worker thread carry the
events; a daemon records events in a database. This project models those parts and proves what they are for.
`dafny verify dfyconfig.toml` checks everything. Every lemma
carries `{:induction false}`: no proof rests on Dafny's automatic induction, each induction is written out.

## Modules

The code transformation and its meaning:

* `Bytecode`: methods as a class reader delivers them (events with symbolic labels) and as they execute (instructions at
  positions, exception table, stack maps, limits); erasing event calls from code.
* `Resolution`: resolving labels, said by the order of events: a label stands for the next instruction, a range covers what
  is visited between its labels, a stack map belongs to the next instruction.
* `InsertedCalls`, `Placement`: the transformation, that erasing undoes it, and where the calls stand.
* `JavaVm`: a multi-threaded machine with operand stacks, reentrant monitors, branches, invocations, thread starts and
  exceptions, after the Java Virtual Machine Specification SE 15, sections 2.11.10, 4.7.3 and 6.5. Only the two monitor
  instructions have a fixed meaning; every other instruction does what a parameter says, so the results hold for every
  instruction set whose instructions do not read their own address. A native method has no code; what it does is what the
  instruction that calls it does. `MonitorRules` proves the machine against the rules of that specification: who may enter
  and leave a monitor and with what count, which handler catches, what calls and returns do to the stack.
* `EventPipeline`, `InstrumentedVm`: flag, counters, mutex, slot, channel, worker, start-up and JVM phases as atomic actions,
  interleaved with the machine in any order. A failed `unwrap` is a state, not a precondition.
* `Projection`, `Simulation`, `WholeProgram`: instrumented runs and original runs are the same runs.
* `Progress`: no added deadlock, bounded added work. `EventOrder`: what is reported. `StackTyping`: why the old limits and
  stack maps still fit.
* `ClassFiles`, `Instrumenter`, `Linking`: whole classes and amendments; the visitor classes in the source's imperative
  form, proved against `InstrumentClass`; repeated instrumentation, verbatim copying, link closure.
* `Renaming`: what renaming a class replaces and what it keeps, from descriptors to whole classes, and that it can be undone.
* `ClassPrograms`: the program that loaded classes make up is the instrumented program of `WholeProgram`, so the run theorems
  hold for it. `AgentProgram`: the least program with the agent in it is such a program.
* `HandlerClasses`, `Reentry`: the agent's own helper and event classes; the call graph of loaded classes, and that handling
  an event never leads to an inserted call. This is why one event is a flat sequence of phases in `EventPipeline`.
* `GraftedHandler`, `HandlerRuns`: the members grafted onto `java/lang/Object`, written out, and the handler executed as code in
  the program of the loaded classes: it does what the phases of `EventPipeline` say. `HandlerLimits`: it keeps within its
  declared limits, an instance of `StackTyping`.
* `AgentRuntime`: the classes behind the pipeline, proved against its atomic actions.

The agent's options and their storage:

* `Pest`, `OptionGrammar`: parsing expression grammars with pest's meaning (ordered choice, greedy repetition, implicit
  whitespace outside atomic rules, silent rules) and the grammar `PjAgentConfLang.pest` as a value interpreted by it.
* `OptionSpec`, `OptionPrinter`: a split-on-comma specification and a printer, each proved to agree with the grammar on every
  string.
* `AgentConf`: the evaluator, as a class with the source's fields and as functions.
* `Utf8`, `RawMemory`, `EnvStorage`, `AgentStorage`: the configuration as bytes in JVMTI memory next to everybody else's
  blocks; `AgentStorage` is the imperative form.

The daemon: `Daemon`, a step system for the recorder with any number of replay clients, and the recorder and the replay loop as
classes. `Wrappers` holds `Option`.

## Where code and documentation disagree

* The comment at `phasicj/agent/instr/MonitorInsnInstrumenter.java:77` says that amendments are not instrumented. Line 82
  passes the instrumenting visitor itself as the sink, so they are. `AmendmentInstrumented` gives an amendment that is not
  copied without modification; `AmendmentVerbatim` says exactly when one is, and
  `ObjectGraftIsVerbatim` that the one this agent makes is.
* The comment at `phasicj/agent/jvm/env_storage.rs:57` says that the outermost record is deallocated. Line 58 only clears the
  slot; `StorageAgrees` counts the blocks that stay behind.
* The head of `phasicj/agent/recorder.rs` speaks of forwarding to the daemon. The worker only receives and logs; the model
  follows that.

One natural law is false: two option strings joined by a comma do not always have the effect of one after the other, because a
blank string is accepted alone but not next to a comma. `BlankDoesNotCompose` is an input, `CompositionHoldsIff` the exact
condition.

## Model

| member | source | states |
|---|---|---|
| `InsertedCalls.ErasureUndoesInstrumentation` | phasicj/agent/instr/MonitorInsnInstrumenter.java:98-120 | erasing the inserted calls from the resolved instrumented method gives the resolved original: instructions, branch targets, exception table, stack maps, limits |
| `InsertedCalls.LabelPosErased` | phasicj/agent/instr/MonitorInsnInstrumenter.java:98-120 | every label of the instrumented method erases to its position in the original |
| `InsertedCalls.MaxsKept` | phasicj/agent/instr/AsmConfig.java:5-9 | the declared stack and local limits are those of the original |
| `InsertedCalls.InsertedCallIs` | phasicj/agent/instr/MonitorInsnInstrumenter.java:98-120 | in front of opcode 194, wherever it stands in a method, comes a static call of the handler's `phasicj$agent$rt$monitorEnter`, in front of 195 one of `phasicj$agent$rt$monitorExit`, in front of everything else nothing |
| `Resolution.LabelIsNextInsn` | phasicj/agent/instr/MonitorInsnInstrumenter.java:89-120 | the labels that the instrumenter passes on stand for the first instruction visited after them |
| `Resolution.RangeIsBetween` | phasicj/agent/instr/MonitorInsnInstrumenter.java:89-120 | an exception range covers exactly the instructions visited after its start label and not after its end label |
| `Bytecode.OldPosMonotone` | phasicj/agent/instr/MonitorInsnInstrumenter.java:98-120 | the new-to-old position map is monotone and advances by one for each instruction that is not a call |
| `Bytecode.CoverageKept` | phasicj/agent/instr/MonitorInsnInstrumenter.java:98-120 | erasure keeps half-open exception ranges: a real instruction is covered after erasure exactly when it was before |
| `Placement.NewPosMonotone` | phasicj/agent/instr/MonitorInsnInstrumenter.java:98-120 | the old-to-new position map is strictly monotone; a monitor instruction takes up two positions, any other one |
| `Placement.LabelsMove` | phasicj/agent/instr/MonitorInsnInstrumenter.java:98-120 | labels, and so branch targets, move with the position map: a jump to a monitor instruction lands on the call |
| `Placement.InsnsMove` | phasicj/agent/instr/MonitorInsnInstrumenter.java:98-120 | at the new position of each instruction stands the instruction, or for a monitor instruction its call followed by it |
| `Placement.InstrumentedIsGuarded` | phasicj/agent/instr/MonitorInsnInstrumenter.java:98-120 | every monitor instruction directly follows a call of its kind, every call directly precedes one, and no branch, range boundary or handler enters between the two |
| `Placement.RangeCoverage` | phasicj/agent/instr/MonitorInsnInstrumenter.java:98-120 | the inserted call lies in exactly the ranges of the instruction it precedes |
| `Placement.FirstHandlerKept` | phasicj/agent/instr/MonitorInsnInstrumenter.java:98-120 | for every exception table, each instruction and the call in front of it have the same first covering entry as the original instruction, with the handler moved |
| `Projection.RealPosition` | phasicj/agent/instr/MonitorInsnInstrumenter.java:98-120 | a frame at a real instruction projects to a frame at the same instruction of the erased code |
| `Projection.HandlerFoundErased` | phasicj/agent/instr/MonitorInsnInstrumenter.java:98-120 | exception dispatch in the instrumented code finds the same table entry as in the erased code |
| `Projection.StepCommutes` | phasicj/agent/instr/MonitorInsnInstrumenter.java:98-120 | unless the thread is at an event call, its step in the instrumented program and in the erased program commute with projection, including blocking, branches, calls, returns, thread starts and exceptions |
| `Simulation.StepProjects` | phasicj/agent/instr/MonitorInsnInstrumenter.java:98-120 | an application step is the same step of the original; every other action changes nothing the original has |
| `Simulation.RunProjects` | phasicj/agent/instr/MonitorInsnInstrumenter.java:71-120 | every instrumented run projects to a run of the original with the same schedule |
| `Simulation.RunLifts` | phasicj/agent/instr/MonitorInsnInstrumenter.java:71-120 | every run of the original is the projection of an instrumented run, from any reachable state |
| `WholeProgram.ErasedIsOriginal` | phasicj/agent/instr/MonitorInsnInstrumenter.java:71-120 | for every method set, whichever part is instrumented: erasing the calls gives the original program, and the instrumented one is well-formed |
| `WholeProgram.SameRuns` | phasicj/agent/instr/MonitorInsnInstrumenter.java:71-120 | for every method set, schedule and initial state: a schedule is possible in the instrumented program exactly when it is in the original, and ends with the same stacks, locals, heap and monitor owners and counts |
| `WholeProgram.InitialIff` | phasicj/agent/instr/MonitorInsnInstrumenter.java:71-120 | the initial states meant: any threads about to begin any methods of the program, over any heap |
| `EventPipeline.HandlerActionSafe` | phasicj/agent/jvm/entrypoints.rs:61-64 | no action of a handler breaks the pipeline's invariant, in particular none aborts or poisons the mutex |
| `EventPipeline.StageActionSafe` | phasicj/agent/jvm/setup.rs:38-54 | start-up and phase steps keep the invariant, and while the agent is being loaded they never wait |
| `EventPipeline.WorkerActionSafe` | phasicj/agent/recorder.rs:24-29 | the worker's `recv` never fails |
| `InstrumentedVm.SysStepKeepsOk` | phasicj/agent/recorder.rs:16-30 | every action of any thread, the loader, the JVM or the worker keeps the invariant of the whole system |
| `InstrumentedVm.WhoMoves` | phasicj/agent/jvm/setup.rs:38-54 | while the agent is being loaded only start-up moves; a thread is either executing its own instructions or inside the call it stands at |
| `InstrumentedVm.NoUnwrapFails` | phasicj/agent/jvm/entrypoints.rs:61-64 | start-up safety over every run: flag set implies slot filled, receiver alive and worker running; no `unwrap` fails |
| `Progress.NoAddedDeadlock` | phasicj/agent/jvm/entrypoints.rs:61-64 | wherever the original could let a thread step, the instrumented program lets it step, or move on inside its call, or it waits for a holder of the mutex that can move on |
| `Progress.WaitEnds` | phasicj/agent/jvm/entrypoints.rs:61-64 | a thread that waits for the slot can take it after at most two steps of its holder |
| `Progress.SameBlocking` | phasicj/agent/rt/ApplicationEvents.java:14-22 | a thread at an application instruction can take it exactly when the original can |
| `Progress.AddedWorkIsBounded` | phasicj/agent/rt/JavaLangObjectAmendment.java:21-31 | over any run a thread makes at most seven handler steps per application step, on top of the call in progress |
| `Progress.InstrumentedProgramProgresses` | phasicj/agent/instr/MonitorInsnInstrumenter.java:71-120 | both, for every instrumented method set and every run from loading the agent on |
| `EventOrder.CallsFollowProgram` | phasicj/agent/instr/MonitorInsnInstrumenter.java:103-119 | per thread and run, the calls begun are in order the monitor instructions the projected run performs, at most one ahead |
| `EventOrder.ForwardedIsSuffix` | phasicj/agent/rt/JavaLangObjectAmendment.java:15-31 | what is forwarded is a suffix of the calls, and all of them once the flag was set |
| `EventOrder.ForwardedAreCounted` | phasicj/agent/rt/ApplicationEvents.java:14-22 | per thread and run, the events counted are in order the events forwarded, the last of which may still have to be counted |
| `EventOrder.EventsConserved` | phasicj/agent/rt/ApplicationEvents.java:11-22 | enter increments = threads between increment and send + channel length + messages received, over any run; exits never enter the channel |
| `EventOrder.CountersCount` | phasicj/agent/rt/ApplicationEvents.java:24-30 | the reported counter is a 32-bit signed number that differs from the number of increments by a multiple of 2^32 |
| `EventOrder.ReportedEvents` | phasicj/agent/instr/MonitorInsnInstrumenter.java:103-119 | the two order results together, for every instrumented method set and run from loading the agent on |
| `EventOrder.NoEventLost` | phasicj/agent/recorder.rs:16-30 | from loading the agent on: enter increments are the events about to be sent, queued and received, and both counters give their numbers of increments up to a multiple of 2^32 |
| `EventOrder.EveryEventArrives` | phasicj/agent/recorder.rs:24-29 | every run from loading the agent on can be continued, without a step of the application, until the worker has received every enter event counted |
| `StackTyping.TypingCarriesOver` | phasicj/agent/instr/AsmConfig.java:5-9 | a stack typing of the original, carried over by position, types the instrumented code with the same maximal depth and declared frames |
| `StackTyping.InstrumentedMethodTyped` | phasicj/agent/instr/MonitorInsnInstrumenter.java:91-119 | the same for every method, with unchanged limits |
| `StackTyping.TypedDepth` | phasicj/agent/instr/AsmConfig.java:5-9 | what a typing is worth: in a typed method the operand stack never gets deeper than the limit, through monitor instructions, branches and handlers |
| `StackTyping.CallDepth` | phasicj/agent/instr/MonitorInsnInstrumenter.java:91-119 | nor through inserted calls |
| `StackTyping.MonitorPairTyped` | phasicj/agent/instr/AsmConfig.java:5-9 | code that enters and leaves a monitor is typed with a limit of one and of no less |
| `Instrumenter.MethodInstrumenter.VisitInsn` | phasicj/agent/instr/MonitorInsnInstrumenter.java:98-120 | writes a call of `phasicj$agent$rt$monitorEnter` and then the instruction for opcode 194, a call of `phasicj$agent$rt$monitorExit` and then the instruction for 195, and just the instruction otherwise |
| `Instrumenter.Amendment.constructor` | phasicj/agent/instr/Amendment.java:50-68 | the helper class is renamed to the class to amend when the amendment is made: nothing mentions the old name any more, members keep access and name, and renaming back gives the helper |
| `Instrumenter.ClassInstrumenter.VisitMethod` | phasicj/agent/instr/MonitorInsnInstrumenter.java:70-75 | a new method is opened in the writer, behind an instrumenting visitor |
| `Instrumenter.ClassInstrumenter.AcceptAmendment` | phasicj/agent/instr/Amendment.java:82-107 | exactly the members with the prefix are forwarded, and methods pass through the instrumenter |
| `Instrumenter.ClassInstrumenter.VisitEnd` | phasicj/agent/instr/MonitorInsnInstrumenter.java:77-86 | the members of every amendment of this class are appended, in order |
| `Instrumenter.MonitorInsnInstrumenter.Instrument` | phasicj/agent/instr/MonitorInsnInstrumenter.java:37-47 | reading a class through the visitor chain writes exactly the class `InstrumentClass` specifies |
| `ClassFiles.LoadedIsInstrumented` | phasicj/agent/jvm/events.rs:93-113 | what the hook leaves of a class whose name begins with `phasicj/agent/rt/`, or which the instrumenter rejects, is the class itself; of every other it is the class with its grafted members, every method of it instrumented |
| `ClassPrograms.LoadedProgram` | phasicj/agent/instr/MonitorInsnInstrumenter.java:37-86 | the program made of the methods of the loaded classes is the instrumented form of the program made of the classes with their grafted members |
| `ClassPrograms.MethodFound` | phasicj/agent/instr/MonitorInsnInstrumenter.java:70-75 | each method of each class is in the program under its name, with its body |
| `ClassPrograms.LoadedClassesRunTheSame` | phasicj/agent/instr/MonitorInsnInstrumenter.java:37-86 | so for every list of classes, amendments and rejected classes both programs have the same runs, if labels lead to instructions and no method called the handler before |
| `ClassPrograms.LoadedClassesReport` | phasicj/agent/instr/MonitorInsnInstrumenter.java:103-119 | and what is reported of loaded classes is, in order, what the uninstrumented program performs in the methods that are not skipped |
| `ClassPrograms.LoadedClassesProgress` | phasicj/agent/jvm/entrypoints.rs:61-64 | and loading adds no deadlock and bounded work |
| `AgentProgram.LeastProgramIsOk` | phasicj/agent/rt/ApplicationEvents.java:5-31 | the program of `java/lang/Object`, ApplicationEvents with its native methods and a counter class, grafted members included, meets that condition |
| `Linking.TimesIsExpand` | phasicj/agent/instr/MonitorInsnInstrumenter.java:99-120 | instrumenting n times puts exactly n matching calls in front of each monitor instruction and changes nothing else |
| `Linking.StripTimes` | phasicj/agent/instr/MonitorInsnInstrumenter.java:99-120 | dropping the calls gives the same body however often a method was instrumented |
| `Linking.ClassErasure` | phasicj/agent/instr/MonitorInsnInstrumenter.java:37-47 | a class without amendment and without prior calls is recovered, member by member, after any number of instrumentations |
| `Linking.AmendedErasure` | phasicj/agent/instr/MonitorInsnInstrumenter.java:77-86 | a class with amendments, without the inserted calls, is the class with the members of its amendments behind its own |
| `Linking.PrefixedInOrder` | phasicj/agent/instr/Amendment.java:82-107 | an amendment adds the methods whose name begins with its prefix, in their order, and no others |
| `Linking.AddedInOrder` | phasicj/agent/instr/MonitorInsnInstrumenter.java:77-86 | amendment after amendment, those that name the class |
| `Linking.AmendmentVerbatim` | phasicj/agent/instr/MonitorInsnInstrumenter.java:77-86 | grafted members are copied verbatim exactly when none contains a monitor instruction |
| `Linking.AmendmentInstrumented` | phasicj/agent/instr/MonitorInsnInstrumenter.java:77-86 | an amendment that is instrumented, against the comment in the source |
| `Reentry.NoReentry` | phasicj/agent/jvm/events.rs:93-96 | following calls and class initialization from the inserted calls through the loaded classes, however they dispatch, no call to the handler is reached exactly when every method reached in the grafted but uninstrumented classes is of a skipped class or free of monitor instructions |
| `Reentry.AgentDoesNotReenter` | phasicj/agent/rt/JavaLangObjectAmendment.java:21-31 | for the handler of this agent no inserted call leads to another, if what it calls outside its own code stays among methods without monitor instructions |
| `Reentry.EntriesAreAgentCode` | phasicj/agent/instr/Instrumenter.java:7-33 | an inserted call runs a grafted method or one of ApplicationEvents, or a static initializer that using `java/lang/Object` runs, if no other class declares methods under the two names |
| `Reentry.AgentBodiesAreMonitorFree` | phasicj/agent/rt/ApplicationEvents.java:11-22 | the code that handles an event has no monitor instructions |
| `Reentry.AgentCalls` | phasicj/agent/rt/ApplicationEvents.java:11-22 | the only calls in that code are of ApplicationEvents and of the atomic counters |
| `Reentry.LeavesToCounters` | phasicj/agent/rt/ApplicationEvents.java:11-22 | so where calls run the methods of the class they name, agent code leads only to those, static initializers apart |
| `Reentry.LeastProgramDoesNotReenter` | phasicj/agent/rt/JavaLangObjectAmendment.java:21-31 | with nothing assumed: in the program of `java/lang/Object`, ApplicationEvents and a counter class, no inserted call leads to another |
| `Reentry.ObjectGraftIsVerbatim` | phasicj/agent/instr/MonitorInsnInstrumenter.java:77-86 | the amendment this agent makes is written unchanged, so for it the comment in the source is true |
| `Linking.RenamedMentionsNothing` | phasicj/agent/instr/Amendment.java:61-68 | after renaming, no name, descriptor or body of the class mentions the old class |
| `Renaming.DescRenamedIs` | phasicj/agent/instr/Amendment.java:61-68 | a renamed descriptor has the same outline and names the same classes in the same order, with the new name for the old |
| `Renaming.OutlineAndNames` | phasicj/agent/instr/Amendment.java:61-68 | outline and names determine a descriptor, so that says all |
| `Renaming.EventKept` | phasicj/agent/instr/Amendment.java:61-68 | a renamed event is the same callback with the same opcode, member name, interface flag, operands, labels and limits; a class it names is replaced exactly if it is the old one |
| `Renaming.MembersKept` | phasicj/agent/instr/Amendment.java:61-68 | members keep their access, name and number of events |
| `Renaming.RenameUnmentioned` | phasicj/agent/instr/Amendment.java:61-68 | a class that does not mention the old name is not changed |
| `Renaming.RenameRoundTrip` | phasicj/agent/instr/Amendment.java:61-68 | renaming to a name that the class does not mention, and back, gives the same class |
| `Linking.GraftIsClosed` | phasicj/agent/instr/Amendment.java:82-107 | link closure with any number of amendments: methods grafted by one do not mention its helper class, and each of their references to a prefixed member of the amended class resolves in it, if in the helper the prefixed methods refer to prefixed members that the helper has |
| `HandlerClasses.HelperIsSelfContained` | phasicj/agent/rt/JavaLangObjectAmendment.java:13-32 | the helper of this agent, constructor included, meets that condition |
| `HandlerClasses.ObjectGraftIsClosed` | phasicj/agent/instr/Instrumenter.java:7-33 | so link closure holds for the amendment of `java/lang/Object` |
| `Linking.InsertedCallsResolve` | phasicj/agent/instr/MonitorInsnInstrumenter.java:103-119 | every call inserted into any class resolves in the handler class if one of its amendments declares the two methods |
| `HandlerClasses.ObjectCallsResolve` | phasicj/agent/instr/Instrumenter.java:7-33 | and they do in `java/lang/Object` with the amendment this agent makes |
| `GraftedHandler.GraftIs` | phasicj/agent/rt/JavaLangObjectAmendment.java:15-31 | the members grafted onto `java/lang/Object`, event by event: the flag, the method that sets it, and the two that read it and call ApplicationEvents |
| `GraftedHandler.LoadedObject` | phasicj/agent/instr/Instrumenter.java:7-33 | the loaded `java/lang/Object` has its own methods, instrumented, and behind them exactly these |
| `GraftedHandler.LeastProgramReaches` | phasicj/agent/rt/ApplicationEvents.java:14-22 | in the least program an event of either kind runs the grafted method, the one of ApplicationEvents, the native one and the counter's increment |
| `GraftedHandler.LeastProgramInitializes` | phasicj/agent/rt/ApplicationEvents.java:11-12 | and the static initializer that makes the counters |
| `HandlerRuns.HandlerRuns` | phasicj/agent/rt/JavaLangObjectAmendment.java:21-31 | executing the method that the inserted call of a kind names: with the flag unset the thread returns behind the call and nothing else changes; with the flag set the counter of that kind goes up by one, the native method of that kind is called once, and nothing else changes |
| `HandlerRuns.PhasesMatchCode` | phasicj/agent/rt/ApplicationEvents.java:14-22 | the phases of the event pipeline change the represented agent exactly as that code changes the heap |
| `HandlerRuns.EnableRuns` | phasicj/agent/rt/JavaLangObjectAmendment.java:17-19 | executing what `pj_vm_start` calls sets the flag and nothing else |
| `HandlerRuns.ReadRuns` | phasicj/agent/rt/ApplicationEvents.java:24-30 | executing the two reporting methods returns the counter of their kind |
| `HandlerRuns.LoadedHasHandler` | phasicj/agent/instr/Instrumenter.java:7-33 | every program with ApplicationEvents, in which `java/lang/Object` declares no method under the agent's prefix by itself, has that code where the inserted calls look for it once it is loaded |
| `HandlerRuns.LeastProgramHasHandler` | phasicj/agent/rt/ApplicationEvents.java:5-31 | the least program is one |
| `HandlerLimits.RulesAreSound` | phasicj/agent/rt/ApplicationEvents.java:14-22 | typing rules for the instructions of the handler that are right about the machine it is executed on |
| `HandlerLimits.CountTyped` | phasicj/agent/rt/ApplicationEvents.java:14-22 | by these rules the counting methods need one stack slot |
| `HandlerLimits.ForwardTyped` | phasicj/agent/rt/JavaLangObjectAmendment.java:21-31 | and so do the grafted methods, whichever way they branch |
| `HandlerLimits.HandlerWithinLimits` | phasicj/agent/rt/ApplicationEvents.java:14-22 | so while a counting method runs, its stack stays within the one slot it declares |
| `AgentRuntime.Recorder.StartForwardingWorkerThread` | phasicj/agent/recorder.rs:16-30 | makes the channel, then waits on a held mutex, panics on a poisoned one, or fills the slot and starts the worker |
| `AgentRuntime.Recorder.Send` | phasicj/agent/jvm/entrypoints.rs:61-64 | waits on a held mutex; otherwise succeeds exactly when it is not poisoned, the slot is filled and the receiver lives; a failure poisons it |
| `AgentRuntime.Recorder.ReceiveOnce` | phasicj/agent/recorder.rs:24-29 | takes one message, waits on an empty channel with a sender, fails without one |
| `AgentRuntime.AgentLibrary.SetupAgent` | phasicj/agent/jvm/setup.rs:38-54 | is the start-up steps of the pipeline in that order, up to one that waits or aborts |
| `AgentRuntime.AgentLibrary.VmStart` | phasicj/agent/jvm/events.rs:53-55 | is the phase step that sets the flag |
| `AgentRuntime.AgentLibrary.MonitorEnter` | phasicj/agent/rt/JavaLangObjectAmendment.java:21-25 | is the pipeline's actions for one enter call back to back, until it returns, waits for the slot or aborts |
| `AgentRuntime.AgentLibrary.MonitorExit` | phasicj/agent/rt/JavaLangObjectAmendment.java:27-31 | the same for an exit call, which touches neither mutex nor channel |
| `AgentRuntime.AgentLibrary.WorkerIteration` | phasicj/agent/recorder.rs:24-29 | is the worker's action of the pipeline, or waits |
| `Pest.MeansSeq` | phasicj/agent/conf/src/PjAgentConfLang.pest:8-20 | a sequence outside atomic rules is its parts with spaces skipped between them |
| `Pest.StarIsRun` | phasicj/agent/conf/src/PjAgentConfLang.pest:8 | a repetition of a character class in an atomic rule takes the longest run |
| `OptionGrammar.NameMeans` | phasicj/agent/conf/src/PjAgentConfLang.pest:1-5 | option names are longest runs of lower-case letters and underscores |
| `OptionGrammar.Alphabets` | phasicj/agent/conf/src/PjAgentConfLang.pest:1-8 | the characters of names and of arguments, by code |
| `OptionGrammar.QuotedMeans` | phasicj/agent/conf/src/PjAgentConfLang.pest:10 | a quoted argument: quote, spaces dropped, longest run of argument characters, quote |
| `OptionGrammar.OptionMeans` | phasicj/agent/conf/src/PjAgentConfLang.pest:12 | an option: name, and the value if an equals sign follows; an unclosed quote falls back to the empty bare value |
| `OptionGrammar.ListMatched` | phasicj/agent/conf/src/PjAgentConfLang.pest:16-20 | the list rule: options between start and end of input, spaces skipped |
| `OptionSpec.OptionOfPiece` | phasicj/agent/conf/src/PjAgentConfLang.pest:12 | inside a longer string, the option rule reads a comma-free piece as the specification does, or gets stuck in front of neither comma nor end |
| `OptionSpec.GrammarMeetsSpec` | phasicj/agent/conf/src/PjAgentConfLang.pest:1-20 | on every string the grammar gives what the specification gives: blank is empty; otherwise split on commas, each piece alone, one bad piece fails all |
| `OptionPrinter.ReadWrittenList` | phasicj/agent/conf/src/PjAgentConfLang.pest:8-18 | every written form of an option list, quoted or bare, with any spaces, is read back as the list; trailing spaces of values are kept |
| `OptionPrinter.ListWasWritten` | phasicj/agent/conf/src/PjAgentConfLang.pest:8-18 | a string that is accepted is a written form of the options read from it |
| `OptionPrinter.AcceptedIffWritten` | phasicj/agent/conf/src/lib.rs:43-70 | the parser hands options `os` to the evaluator exactly when the string writes `os` in some style, or is blank and `os` is empty |
| `AgentConf.PjAgentConf.ApplyAgentOption` | phasicj/agent/conf/src/lib.rs:72-106 | each of the three flags is set without value or by `true`, cleared by `false`, and panics on everything else; `phasicj_exec` takes a non-empty path; every other name panics; a panic changes nothing |
| `AgentConf.PjAgentConf.ApplyAgentOptionsListStr` | phasicj/agent/conf/src/lib.rs:43-60 | the loop over parsed options ends in the specified configuration, or panics with the fields of that moment |
| `AgentConf.OptionEffect` | phasicj/agent/conf/src/lib.rs:72-106 | which setting each option name changes, and to what |
| `AgentConf.AssignmentStrings` | phasicj/agent/conf/src/lib.rs:43-106 | from the characters to the configuration: `verbose=`, `phasicj_exec=` and the other two with any value |
| `AgentConf.ReadQuoted` | phasicj/agent/conf/src/PjAgentConfLang.pest:10 | quotes around a value make no difference to it |
| `AgentConf.AppliesIffAllValid` | phasicj/agent/conf/src/lib.rs:72-106 | a list is applied exactly when every option in it, wherever it stands, is a flag without value, `true` or `false`, or a non-empty path |
| `AgentConf.LastOneWins` | phasicj/agent/conf/src/lib.rs:72-106 | afterwards each setting is what its last occurrence says, or what it was |
| `AgentConf.StringsCompose` | phasicj/agent/conf/src/lib.rs:43-60 | for all strings and configurations: joining two by a comma succeeds exactly when neither is blank and they can be applied in turn, and then with the same configuration |
| `AgentConf.CompositionHoldsIff` | phasicj/agent/conf/src/lib.rs:43-60 | joining fails although applying in turn succeeds for exactly the strings of which one is blank while both are accepted by themselves |
| `AgentConf.BlankDoesNotCompose` | phasicj/agent/conf/src/PjAgentConfLang.pest:18 | such an input: the empty string and `verbose` |
| `AgentConf.BlankIsNeutral` | phasicj/agent/conf/src/PjAgentConfLang.pest:18 | a blank string by itself is accepted and changes nothing |
| `AgentConf.AppliesIffAccepted` | phasicj/agent/conf/src/lib.rs:43-60 | whether a string is accepted does not depend on the configuration |
| `AgentConf.ReachableIffStorable` | phasicj/agent/conf/src/lib.rs:80-86 | the configurations that option strings can make out of the defaults are exactly those whose path is absent, or non-empty over the argument alphabet without leading space |
| `Utf8.DecodesIffEncodes` | phasicj/agent/jvm/env_storage.rs:82-90 | bytes decode to a string exactly when they are its strict UTF-8 encoding |
| `Utf8.WidthBounds` | phasicj/agent/jvm/env_storage.rs:110-111 | the first and last scalar value of each width, as bytes |
| `EnvStorage.ReadWritten` | phasicj/agent/jvm/env_storage.rs:67-75 | a record written field by field is read back, whatever the padding holds |
| `EnvStorage.RecordReadIff` | phasicj/agent/jvm/env_storage.rs:67-75 | reading a record is defined exactly when its 32 bytes are there and its three flags are 0 or 1 |
| `EnvStorage.FieldsWritten` | phasicj/agent/jvm/env_storage.rs:67-75 | each field is at its offset: flags as one byte, 0 or 1, pointer and length as words |
| `EnvStorage.LittleEndian` | phasicj/agent/jvm/env_storage.rs:67-75 | words are little-endian |
| `EnvStorage.FromConfStores` | phasicj/agent/jvm/env_storage.rs:101-130 | the path is copied to a block of its own, which then holds its encoding |
| `EnvStorage.InitStores` | phasicj/agent/jvm/env_storage.rs:23-34 | after `init` the configuration is stored in one block, or two if it has a path |
| `EnvStorage.OfStored` | phasicj/agent/jvm/env_storage.rs:36-42 | `of` gives back exactly what is stored; decoding never fails |
| `EnvStorage.InitSucceedsIff` | phasicj/agent/jvm/env_storage.rs:155-179 | `init` returns normally exactly when nothing is stored, the machine provides an aligned record, and a path is non-empty and gets memory |
| `EnvStorage.ParsedConfIsStored` | phasicj/agent/jvm/env_storage.rs:164-167 | configurations from option strings never reach the panic on an empty allocation |
| `EnvStorage.FreeReleasesPath` | phasicj/agent/jvm/env_storage.rs:44-59 | `free` deallocates the path's block and nothing else, the record stays allocated, and a second `free` panics |
| `EnvStorage.HookKeeps` | phasicj/agent/jvm/events.rs:84-113 | the hook never disturbs the storage; with a configuration stored it replaces exactly the classes that the instrumenter accepts and whose name does not begin with `phasicj/agent/rt/`, and returns normally unless memory is refused or the class is longer than 2^31 - 1 |
| `EnvStorage.HookCopies` | phasicj/agent/jvm/events.rs:134-148 | the buffer handed over is new, holds exactly the instrumented class, and is the machine's to release |
| `EnvStorage.VmKeeps` | phasicj/agent/jvm/events.rs:120-130 | whatever the machine allocates, writes and deallocates of its own blocks, the storage is not disturbed |
| `EnvStorage.VmMoveActs` | phasicj/agent/jvm/events.rs:123-130 | what the machine may do with its own blocks it does, and with the agent's it does nothing |
| `EnvStorage.StorageAgrees` | phasicj/agent/jvm/env_storage.rs:1-4 | over every run: no undefined access; `of` gives the last `init`'s configuration, or nothing after `free`; the agent holds one block per `free` besides what is stored |
| `RawMemory.AllocateKeeps` | phasicj/agent/jvm/jvmti_env.rs:63-66 | allocation keeps every live block and its contents |
| `RawMemory.AllocateSucceedsIff` | phasicj/agent/jvm/jvmti_env.rs:63-66 | memory is provided exactly when the answer is a real, unused stretch of addresses of the requested length; a request for nothing gets null |
| `RawMemory.DeallocateKeeps` | phasicj/agent/jvm/jvmti_env.rs:69-72 | deallocating one owner's block keeps the other owner's blocks |
| `RawMemory.DeallocateFrees` | phasicj/agent/jvm/jvmti_env.rs:69-72 | memory that is given back, and only that, can be given out again |
| `AgentStorage.JvmtiEnv.WriteConf` | phasicj/agent/jvm/env_storage.rs:101-130 | `from_conf` as calls on memory, one after the other |
| `AgentStorage.JvmtiEnv.InitStorage` | phasicj/agent/jvm/env_storage.rs:23-34 | `init` in the source's order meets its specification, on success and on each panic |
| `AgentStorage.JvmtiEnv.FreeStorage` | phasicj/agent/jvm/env_storage.rs:44-59 | `free` meets its specification |
| `AgentStorage.JvmtiEnv.ClassFileLoadHook` | phasicj/agent/jvm/events.rs:71-149 | the hook meets its specification, new class data included: returning normally, it replaces exactly the accepted classes outside `phasicj/agent/rt/` |
| `AgentStorage.JvmtiEnv.VmDeath` | phasicj/agent/jvm/events.rs:65-67 | at VM death the stored configuration is released and no longer found |
| `Daemon.SqliteRecorder.New` | phasicj/daemon/rtevents.rs:16-28 | succeeds exactly on a database without the table, and otherwise leaves its rows alone |
| `Daemon.SqliteRecorder.RecordEvents` | phasicj/daemon/rtevents.rs:39-58 | appends one row with the next id, then acknowledges; panics on a poisoned mutex and on a failing insertion, which poisons it and adds no row |
| `Daemon.SqliteRecorder.Replay` | phasicj/daemon/tests/sqlite_replay_client/main.rs:45-50 | the loop appends the readable descriptions in order to whatever the table holds, and gives up exactly at a null |
| `Daemon.InsertAllNumbered` | phasicj/daemon/rtevents.rs:44-51 | appended rows are numbered on, and what can be read is the old table followed by the replayed descriptions |
| `Daemon.ReplayCopies` | phasicj/daemon/tests/sqlite_replay_client/main.rs:27-50 | replaying a recorded table into a new recorder copies it, ids included |
| `Daemon.NextIdIs` | phasicj/daemon/rtevents.rs:18-24 | one more than the largest id is one more than the number of rows |
| `Daemon.NextIdIsLeast` | phasicj/daemon/rtevents.rs:18-24 | a new id is the least number above every id of the table, and 1 in an empty one |
| `Daemon.TableIsMerge` | phasicj/daemon/rtevents.rs:39-58 | for any clients, interleaving and failing insertions: ids are 1..n, the table is a merge of prefixes of the clients' inputs, and acknowledged <= stored <= acknowledged + 1 |
| `Daemon.FreshIsStart` | phasicj/daemon/rtevents.rs:16-28 | there is exactly one new daemon for given inputs |
| `Daemon.NothingAfterFailure` | phasicj/daemon/rtevents.rs:44-51 | a failing insertion stores nothing, and after it nothing is ever stored again, whatever the clients do |
| `Daemon.SomeoneMoves` | phasicj/daemon/rtevents.rs:44-51 | a client that is not finished can move, or waits for the holder of the connection, which can |
| `Daemon.ActionsAreProgress` | phasicj/daemon/tests/sqlite_replay_client/main.rs:45-50 | over any run without failing insertions, a client's actions are five per acknowledged event plus those of the request under way |
| `Daemon.EveryRunCompletes` | phasicj/daemon/rtevents.rs:39-58 | every such run of a new daemon takes at most five actions per event of each client, and can be continued until every input is stored and acknowledged |
| `Daemon.ReplayReproduces` | phasicj/daemon/tests/sqlite_replay_client/main.rs:27-50 | one client replaying a recorded table into a new daemon: always a prefix of it, and equal once all is acknowledged |

## Left out

* ASM's byte level (class-file bytes, constant pool, wide jumps, switch padding, the 65535-byte limit), and `jsr`/`ret`: the
  instructions of the model do not read their own address.
* Handlers are assumed to return normally: class loading and initialisation by the first call, `NoClassDefFoundError`, stack
  overflow, memory exhaustion and asynchronous exceptions inside a handler are not modelled.
* Synchronized methods (an access flag): they contain no monitor instructions and the source does not report them.
* No Java code runs while the agent library is being loaded (JVMTI's OnLoad phase), and the phases follow in order; event
  callbacks after VM death are not modelled.
* Child processes, dumping of class files, the embedded JAR, sockets, gRPC, Tokio, SQLite's storage, logging, command lines.
  What the instrumenter process makes of a class is a parameter of the load hook.
* Modified UTF-8: option strings and class names are plain strings; a class name is always present.
* Registering the JVMTI capabilities, callbacks and notification modes (`phasicj/agent/jvm/setup.rs:56-101`): one start-up step.
* Unique member names are assumed where a reference resolves: of two members with one name, which one is found is not modelled.
* AgentRuntime.AgentLibrary.MonitorEnter: describes a call that nobody interrupts; interleavings are the subject of
  `InstrumentedVm`. The same holds for `MonitorExit` and `SetupAgent`.
* HandlerRuns.HandlerRuns: the same for the handler as code; what `AtomicInteger` and the two native methods do is given (they
  count), class initialization is not executed, and what native `monitorEnter` does inside, the phases `AtLock`, `Holding` and
  `Sent`, has no bytecode.
* StackTyping.TypedDepth: within one activation of a method; what a call leaves on its caller's stack is up to the typing rules.
* StackTyping.InstrumentedMethodTyped: typing rules of instructions other than the two monitor instructions and the inserted
  call are a parameter, and declared frames are compared with shapes by a parameter as well; uninitialized values are opaque
  there, while `ErasureUndoesInstrumentation` covers the labels that stack maps give them.
* EnvStorage.StorageAgrees: each callback is one step; a hook that is still running while the machine dies is not modelled.
* Reentry.NoReentry: follows method calls and static initializers; call sites bound at run time (`invokedynamic`), reflection and
  native code that calls back into Java are not edges.
* Reentry.AgentDoesNotReenter: what `AtomicInteger` and the static initializers of library classes do is a hypothesis.
* Line numbers and local variable tables, which nothing executes.
* Daemon.TableIsMerge: transport errors between client and daemon are not modelled; failing insertions are.
* The experimental SVM bindings and the prototypes: duplicates of the code above.

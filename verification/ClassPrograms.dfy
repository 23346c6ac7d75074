/**
  From classes to programs. The program that consists of the methods of the classes as the load hook leaves them is
  the instrumented form of the program that consists of the methods of the same classes with their grafted members;
  so both have the same runs.
 */
module ClassPrograms {
  import opened Wrappers
  import opened Bytecode
  import opened InsertedCalls
  import opened ClassFiles
  import opened JavaVm
  import opened Projection
  import opened InstrumentedVm
  import opened Simulation
  import opened WholeProgram
  import opened Progress
  import opened EventOrder
  import opened EventPipeline

  function ClassMethods(owner: string, ms: seq<Method>): Methods {
    if ms == [] then map[]
    else ClassMethods(owner, ms[1..])[MethodId(owner, ms[0].name, ms[0].desc) := ms[0].body]
  }

  /** The methods of a list of classes; a class that comes earlier hides one of the same name. */
  function MethodsOf(cs: seq<ClassFile>): Methods {
    if cs == [] then map[] else MethodsOf(cs[1..]) + ClassMethods(cs[0].name, cs[0].methods)
  }

  lemma {:induction false} ClassMethodsOwned(owner: string, ms: seq<Method>)
    ensures forall m :: m in ClassMethods(owner, ms) ==> m.owner == owner
  {
    if ms == [] {
    } else {
      ClassMethodsOwned(owner, ms[1..]);
    }
  }

  lemma {:induction false} ClassMethodFound(owner: string, ms: seq<Method>, j: nat)
    requires j < |ms| && forall k :: 0 <= k < j ==> ms[k].name != ms[j].name || ms[k].desc != ms[j].desc
    ensures var id := MethodId(owner, ms[j].name, ms[j].desc);
            id in ClassMethods(owner, ms) && ClassMethods(owner, ms)[id] == ms[j].body
  {
    if j > 0 {
      assert forall k :: 0 <= k < j - 1 ==> ms[1..][k] == ms[k + 1];
      ClassMethodFound(owner, ms[1..], j - 1);
    }
  }

  /** Each method of each class is in the program under its name, with its body; of methods with the same name and
      descriptor in classes of the same name, it is the first. */
  lemma {:induction false} MethodFound(cs: seq<ClassFile>, i: nat, j: nat)
    requires i < |cs| && j < |cs[i].methods| && forall k :: 0 <= k < i ==> cs[k].name != cs[i].name
    requires var ms := cs[i].methods; forall k :: 0 <= k < j ==> ms[k].name != ms[j].name || ms[k].desc != ms[j].desc
    ensures var id := MethodId(cs[i].name, cs[i].methods[j].name, cs[i].methods[j].desc);
            id in MethodsOf(cs) && MethodsOf(cs)[id] == cs[i].methods[j].body
  {
    if i == 0 {
      ClassMethodFound(cs[0].name, cs[0].methods, j);
    } else {
      assert forall k :: 0 <= k < i - 1 ==> cs[1..][k] == cs[k + 1];
      MethodFound(cs[1..], i - 1, j);
      ClassMethodsOwned(cs[0].name, cs[0].methods);
    }
  }

  function ProgramOf(h: string, cs: seq<ClassFile>): Program {
    OriginalProgram(h, MethodsOf(cs))
  }

  /** The methods of classes that are not skipped. */
  function Hooked(rejected: set<string>, ms: Methods): set<MethodId> {
    set m | m in ms && !Skipped(rejected, m.owner)
  }

  lemma {:induction false} ClassMethodsInstrumented(h: string, owner: string, ms: seq<Method>)
    ensures var before, after := ClassMethods(owner, ms), ClassMethods(owner, InstrumentMethods(h, ms));
            && after.Keys == before.Keys
            && forall m :: m in before ==> m.owner == owner && after[m] == InstrumentEvents(h, before[m])
  {
    if ms == [] {
    } else {
      ClassMethodsInstrumented(h, owner, ms[1..]);
      assert InstrumentMethods(h, ms)[1..] == InstrumentMethods(h, ms[1..]);
    }
  }

  /** The methods of the first class. */
  lemma {:induction false} FirstClassLoaded(h: string, ams: seq<AmendmentData>, rejected: set<string>,
          cs: seq<ClassFile>)
    requires cs != []
    ensures var a, b := Grafted(ams, rejected, cs)[0], Loaded(h, ams, rejected, cs)[0];
            var before, after := ClassMethods(a.name, a.methods), ClassMethods(b.name, b.methods);
            && after.Keys == before.Keys
            && forall m :: m in before ==> after[m] == if Skipped(rejected, m.owner) then before[m]
                else InstrumentEvents(h, before[m])
  {
    LoadedIsInstrumented(h, ams, rejected, cs, 0);
    var a := Grafted(ams, rejected, cs)[0];
    ClassMethodsOwned(a.name, a.methods);
    ClassMethodsInstrumented(h, a.name, a.methods);
  }

  /** Loading the classes instruments exactly the methods of the classes that are not skipped, grafted members
      included. */
  lemma {:induction false} LoadedMethods(h: string, ams: seq<AmendmentData>, rejected: set<string>, cs: seq<ClassFile>)
    ensures var before, after := MethodsOf(Grafted(ams, rejected, cs)), MethodsOf(Loaded(h, ams, rejected, cs));
            && after.Keys == before.Keys
            && forall m :: m in before ==> after[m] == if Skipped(rejected, m.owner) then before[m]
                else InstrumentEvents(h, before[m])
  {
    hide Skipped, ClassMethods;
    if cs == [] {
    } else {
      FirstClassLoaded(h, ams, rejected, cs);
      LoadedMethods(h, ams, rejected, cs[1..]);
      assert Grafted(ams, rejected, cs)[1..] == Grafted(ams, rejected, cs[1..]);
      assert Loaded(h, ams, rejected, cs)[1..] == Loaded(h, ams, rejected, cs[1..]);
    }
  }

  /** The program of the loaded classes is the instrumented program. */
  lemma {:induction false} LoadedProgram(h: string, ams: seq<AmendmentData>, rejected: set<string>, cs: seq<ClassFile>)
    ensures var before := MethodsOf(Grafted(ams, rejected, cs));
            ProgramOf(h, Loaded(h, ams, rejected, cs)) == InstrumentedProgram(h, before, Hooked(rejected, before))
  {
    hide Skipped, Resolve, MethodsOf;
    LoadedMethods(h, ams, rejected, cs);
  }

  /** For every list of classes, amendments and rejected classes, every schedule and initial state: the schedule is
      possible in the program of the loaded classes, next to the agent, exactly when it is possible in the program of
      the classes with their grafted members but without inserted calls; and both end with the same stacks, locals,
      heap and monitors. */
  lemma {:induction false} LoadedClassesRunTheSame(sem: Semantics, h: string, ams: seq<AmendmentData>,
          rejected: set<string>,
      cs: seq<ClassFile>, steps: seq<(Tid, int)>, s: State)
    requires MethodsOk(h, MethodsOf(Grafted(ams, rejected, cs))) && Initial(MethodsOf(Grafted(ams, rejected, cs)), s)
    ensures var p, o := ProgramOf(h, Loaded(h, ams, rejected, cs)), ProgramOf(h, Grafted(ams, rejected, cs));
            && (Run(sem, o, steps, s).Some? <==>
                  exists ls :: Schedule(ls) == steps && SysRun(sem, p, ls, Boot(s)).Some?)
            && (forall ls :: Schedule(ls) == steps && SysRun(sem, p, ls, Boot(s)).Some? ==>
                  Run(sem, o, steps, s) == Some(Proj(p, SysRun(sem, p, ls, Boot(s)).value.vm)))
  {
    var before := MethodsOf(Grafted(ams, rejected, cs));
    LoadedProgram(h, ams, rejected, cs);
    SameRuns(sem, h, before, Hooked(rejected, before), steps, s);
  }

  /** What is reported, for loaded classes: per thread, the event calls are the monitor instructions that the
      uninstrumented program performs in the methods that are not skipped, in order and at most one ahead, and what is
      forwarded is a suffix of them. */
  lemma {:induction false} LoadedClassesReport(sem: Semantics, h: string, ams: seq<AmendmentData>,
          rejected: set<string>,
      cs: seq<ClassFile>, ls: seq<Action>, s: State, t: Tid)
    requires MethodsOk(h, MethodsOf(Grafted(ams, rejected, cs))) && Initial(MethodsOf(Grafted(ams, rejected, cs)), s)
    requires SysRun(sem, ProgramOf(h, Loaded(h, ams, rejected, cs)), ls, Boot(s)).Some?
    ensures var p, o := ProgramOf(h, Loaded(h, ams, rejected, cs)), ProgramOf(h, Grafted(ams, rejected, cs));
            var on := Hooked(rejected, MethodsOf(Grafted(ams, rejected, cs)));
            var s' := SysRun(sem, p, ls, Boot(s)).value;
            var calls := Calls(sem, p, ls, Boot(s), t);
            && calls == Performed(sem, o, on, Schedule(ls), s, t) + Ahead(p, on, s', t)
            && IsSuffix(Forwarded(sem, p, ls, Boot(s), t) + Undecided(s', t), calls)
  {
    hide SysRun, MethodsOf, Hooked, Performed, Calls, Forwarded, Ahead;
    var before := MethodsOf(Grafted(ams, rejected, cs));
    LoadedProgram(h, ams, rejected, cs);
    ReportedEvents(sem, h, before, Hooked(rejected, before), ls, s, t);
  }

  /** Progress, for loaded classes: in every reachable state a thread that could go on in the uninstrumented program
      can go on, or waits for one that can, and the work in event calls is bounded by the application's own steps. */
  lemma {:induction false} LoadedClassesProgress(sem: Semantics, h: string, ams: seq<AmendmentData>,
      rejected: set<string>, cs: seq<ClassFile>, ls: seq<Action>, s: State, t: Tid, input: int)
    requires MethodsOk(h, MethodsOf(Grafted(ams, rejected, cs))) && Initial(MethodsOf(Grafted(ams, rejected, cs)), s)
    requires SysRun(sem, ProgramOf(h, Loaded(h, ams, rejected, cs)), ls, Boot(s)).Some?
    ensures var p, o := ProgramOf(h, Loaded(h, ams, rejected, cs)), ProgramOf(h, Grafted(ams, rejected, cs));
            var s' := SysRun(sem, p, ls, Boot(s)).value;
            && CountHandler(ls, t) <= 7 * CountApp(ls, t) + 7
            && (Step(sem, o, t, input, Proj(p, s'.vm)).Some? ==>
                  if !JavaRuns(s'.agent) then CanMove(sem, p, Stage, s')
                  else CanMove(sem, p, App(t, input), s') || CanMove(sem, p, Handler(t), s')
                       || exists u :: WaitsFor(sem, p, t, u, s'))
  {
    hide SysRun, MethodsOf, Hooked, Step, CanMove, WaitsFor, JavaRuns, Proj;
    var before := MethodsOf(Grafted(ams, rejected, cs));
    LoadedProgram(h, ams, rejected, cs);
    InstrumentedProgramProgresses(sem, h, before, Hooked(rejected, before), ls, s, t, input);
  }
}

/**
  Whole runs. Every run of the instrumented program next to the agent projects to a run of the original program with
  the same schedule, stacks, locals, heap and monitors; and every run of the original lifts to an instrumented one.
 */
module Simulation {
  import opened Wrappers
  import opened Bytecode
  import opened JavaVm
  import opened Projection
  import opened EventPipeline
  import opened InstrumentedVm

  /** The application steps of a run, in order. */
  function Schedule(ls: seq<Action>): seq<(Tid, int)> {
    if ls == [] then []
    else (if ls[0].App? then [(ls[0].t, ls[0].input)] else []) + Schedule(ls[1..])
  }

  lemma {:induction false} ScheduleConcat(a: seq<Action>, b: seq<Action>)
    ensures Schedule(a + b) == Schedule(a) + Schedule(b)
  {
    if a == [] {
      assert a + b == b;
    } else {
      assert (a + b)[1..] == a[1..] + b;
      ScheduleConcat(a[1..], b);
      var first := if a[0].App? then [(a[0].t, a[0].input)] else [];
      assert (first + Schedule(a[1..])) + Schedule(b) == first + (Schedule(a[1..]) + Schedule(b));
    }
  }

  lemma {:induction false} SysRunConcat(sem: Semantics, prog: Program, a: seq<Action>, b: seq<Action>, s: System)
    requires SysRun(sem, prog, a, s).Some?
    ensures SysRun(sem, prog, a + b, s) == SysRun(sem, prog, b, SysRun(sem, prog, a, s).value)
  {
    if a == [] {
      assert a + b == b;
    } else {
      assert (a + b)[1..] == a[1..] + b;
      SysRunConcat(sem, prog, a[1..], b, SysStep(sem, prog, a[0], s).value);
    }
  }

  lemma {:induction false} ReturnProjects(prog: Program, s: State, t: Tid)
    requires AtEventCall(prog, s, t)
    ensures Proj(prog, ReturnFromCall(s, t)) == Proj(prog, s)
  {
    var th := s.threads[t];
    var f := th.frames[0];
    var g := Goto(f, f.pc + 1, f.data);
    OldPosMonotone(prog[f.mid].insns, f.pc, f.pc + 1);
    ProjSetTop(prog, s, t, g, th.mode, s.shared);
    var p := Proj(prog, s);
    assert [ProjFrame(prog, f)] + p.threads[t].frames[1..] == p.threads[t].frames;
    assert p.threads[t := p.threads[t]] == p.threads;
  }

  lemma {:induction false} AppProjects(sem: Semantics, prog: Program, t: Tid, input: int, s: System)
    requires ProgramOk(prog) && StateOk(prog, s.vm) && SysStep(sem, prog, App(t, input), s).Some?
    ensures Step(sem, EraseProgram(prog), t, input, Proj(prog, s.vm))
            == Some(Proj(prog, SysStep(sem, prog, App(t, input), s).value.vm))
  {
    assert !AtEventCall(prog, s.vm, t);
    StepCommutes(sem, prog, t, input, s.vm);
  }

  lemma {:induction false} HandlerProjects(prog: Program, t: Tid, s: System)
    requires SysOk(prog, s) && HandlerStep(prog, t, s).Some?
    ensures Proj(prog, HandlerStep(prog, t, s).value.vm) == Proj(prog, s.vm)
  {
    if PhaseOf(s.busy, t).AtReturn? {
      assert AtEventCall(prog, s.vm, t);
      ReturnProjects(prog, s.vm, t);
    }
  }

  /** One step: an application step is the same step of the original program; every other step changes
      nothing the original program has. */
  lemma {:induction false} StepProjects(sem: Semantics, prog: Program, l: Action, s: System)
    requires ProgramOk(prog) && SysOk(prog, s) && SysStep(sem, prog, l, s).Some?
    ensures var s' := SysStep(sem, prog, l, s).value;
            if l.App? then Step(sem, EraseProgram(prog), l.t, l.input, Proj(prog, s.vm)) == Some(Proj(prog, s'.vm))
            else Proj(prog, s'.vm) == Proj(prog, s.vm)
  {
    match l
    case App(t, input) => AppProjects(sem, prog, t, input, s);
    case Handler(t) => HandlerProjects(prog, t, s);
    case Stage =>
    case Worker =>
  }

  /** Every run with event calls is a run without them. */
  lemma {:induction false} RunProjects(sem: Semantics, prog: Program, ls: seq<Action>, s: System)
    requires ProgramOk(prog) && SysOk(prog, s) && SysRun(sem, prog, ls, s).Some?
    ensures Run(sem, EraseProgram(prog), Schedule(ls), Proj(prog, s.vm))
            == Some(Proj(prog, SysRun(sem, prog, ls, s).value.vm))
  {
    if ls == [] {
    } else {
      SysStepKeepsOk(sem, prog, ls[0], s);
      StepProjects(sem, prog, ls[0], s);
      var s' := SysStep(sem, prog, ls[0], s).value;
      RunProjects(sem, prog, ls[1..], s');
      if ls[0].App? {
        assert Schedule(ls)[1..] == Schedule(ls[1..]);
      } else {
        assert Schedule(ls) == Schedule(ls[1..]);
      }
    }
  }

  // ---------------------------------------------------------------- lifting

  /** How many steps thread `t` still has to make before it is back at an application instruction. */
  function CallWork(prog: Program, s: System, t: Tid): nat {
    match PhaseOf(s.busy, t)
    case Idle => if AtEventCall(prog, s.vm, t) then 7 else 0
    case AtFlag(_) => 6
    case AtCount(_) => 5
    case AtLock => 4
    case Holding => 3
    case Sent => 2
    case AtReturn => 1
  }

  /** The mutex is no obstacle to `t`. */
  predicate MutexOpen(a: Agent, t: Tid) {
    a.mutex == None || a.mutex == Some(JavaThread(t))
  }

  /** `t` alone runs an event call to its end. */
  lemma {:induction false} FinishCall(sem: Semantics, prog: Program, s: System, t: Tid)
          returns (ls: seq<Action>, s': System)
    requires ProgramOk(prog) && SysOk(prog, s) && JavaRuns(s.agent) && MutexOpen(s.agent, t)
        && AtEventCall(prog, s.vm, t)
    ensures SysRun(sem, prog, ls, s) == Some(s') && Schedule(ls) == []
    ensures SysOk(prog, s') && JavaRuns(s'.agent) && s'.agent.mutex == None
    ensures s'.vm == ReturnFromCall(s.vm, t)
    ensures forall u :: PhaseOf(s'.busy, u) == if u == t then Idle else PhaseOf(s.busy, u)
    decreases CallWork(prog, s, t)
  {
    hide StateOk;
    var r := SysStep(sem, prog, Handler(t), s);
    assert r.Some?;
    SysStepKeepsOk(sem, prog, Handler(t), s);
    var n := r.value;
    assert forall u :: u != t ==> PhaseOf(n.busy, u) == PhaseOf(s.busy, u);
    if PhaseOf(s.busy, t).AtReturn? {
      ls, s' := [Handler(t)], n;
      assert SysRun(sem, prog, [], n) == Some(n);
      assert ls[1..] == [];
      assert s.agent.mutex == None by {
        assert PhaseOf(s.busy, t) == AtReturn;
      }
    } else {
      ls, s' := FinishCall(sem, prog, n, t);
      ls := [Handler(t)] + ls;
      assert ls[1..] == ls[1..][..];
    }
  }

  function BusyThreads(s: System): set<Tid> {
    set t | t in s.busy && !s.busy[t].Idle?
  }

  predicate Quiet(s: System) {
    BusyThreads(s) == {} && s.agent.mutex == None
  }

  /** While Java runs, only a thread inside an event call can hold the mutex, and some busy thread is not kept out. */
  lemma {:induction false} HolderIsBusy(prog: Program, s: System)
    requires SysOk(prog, s) && JavaRuns(s.agent)
    ensures s.agent.mutex.Some? ==> s.agent.mutex.value.JavaThread? && s.agent.mutex.value.t in BusyThreads(s)
    ensures BusyThreads(s) != {} ==> exists t :: t in BusyThreads(s) && MutexOpen(s.agent, t)
  {
    if s.agent.mutex.Some? {
      assert s.agent.mutex.value.JavaThread?;
      var u := s.agent.mutex.value.t;
      assert PhaseOf(s.busy, u) == Holding || PhaseOf(s.busy, u) == Sent;
      assert u in BusyThreads(s) && MutexOpen(s.agent, u);
    } else if BusyThreads(s) != {} {
      var t :| t in BusyThreads(s);
      assert MutexOpen(s.agent, t);
    }
  }

  /** The same, seen from the set of busy threads and from the original program. */
  lemma {:induction false} FinishOne(sem: Semantics, prog: Program, s: System, t: Tid)
          returns (ls: seq<Action>, s': System)
    requires ProgramOk(prog) && SysOk(prog, s) && JavaRuns(s.agent) && MutexOpen(s.agent, t)
        && AtEventCall(prog, s.vm, t)
    ensures SysRun(sem, prog, ls, s) == Some(s') && Schedule(ls) == []
    ensures SysOk(prog, s') && JavaRuns(s'.agent) && s'.agent.mutex == None
    ensures s'.vm == ReturnFromCall(s.vm, t) && Proj(prog, s'.vm) == Proj(prog, s.vm)
    ensures BusyThreads(s') == BusyThreads(s) - {t}
  {
    hide StateOk, Proj, Inv;
    ls, s' := FinishCall(sem, prog, s, t);
    ReturnProjects(prog, s.vm, t);
    forall u ensures u in BusyThreads(s') <==> u in BusyThreads(s) && u != t {
      assert PhaseOf(s'.busy, u) == if u == t then Idle else PhaseOf(s.busy, u);
    }
  }

  /** All event calls in progress can be run to their end without any application step. */
  lemma {:induction false} Quiesce(sem: Semantics, prog: Program, s: System) returns (ls: seq<Action>, s': System)
    requires ProgramOk(prog) && SysOk(prog, s) && JavaRuns(s.agent)
    ensures SysRun(sem, prog, ls, s) == Some(s') && Schedule(ls) == []
    ensures SysOk(prog, s') && JavaRuns(s'.agent) && Quiet(s')
    ensures Proj(prog, s'.vm) == Proj(prog, s.vm)
    decreases |BusyThreads(s)|
  {
    HolderIsBusy(prog, s);
    if BusyThreads(s) == {} {
      ls, s' := [], s;
    } else {
      var t :| t in BusyThreads(s) && MutexOpen(s.agent, t);
      assert AtEventCall(prog, s.vm, t) by { assert !PhaseOf(s.busy, t).Idle?; }
      var a, m := FinishOne(sem, prog, s, t);
      var b;
      b, s' := Quiesce(sem, prog, m);
      ls := a + b;
      SysRunConcat(sem, prog, a, b, s);
      ScheduleConcat(a, b);
    }
  }

  /** `t` runs the event calls in front of its next application instruction. */
  lemma {:induction false} ReachInstruction(sem: Semantics, prog: Program, s: System, t: Tid)
          returns (ls: seq<Action>, s': System)
    requires ProgramOk(prog) && SysOk(prog, s) && JavaRuns(s.agent) && Quiet(s)
    ensures SysRun(sem, prog, ls, s) == Some(s') && Schedule(ls) == []
    ensures SysOk(prog, s') && JavaRuns(s'.agent) && Quiet(s') && !AtEventCall(prog, s'.vm, t)
    ensures Proj(prog, s'.vm) == Proj(prog, s.vm)
    decreases if AtEventCall(prog, s.vm, t)
        then |prog[s.vm.threads[t].frames[0].mid].insns| - s.vm.threads[t].frames[0].pc else 0
  {
    if !AtEventCall(prog, s.vm, t) {
      ls, s' := [], s;
    } else {
      var a, m := FinishOne(sem, prog, s, t);
      assert m.vm.threads[t].frames[0].pc == s.vm.threads[t].frames[0].pc + 1;
      var b;
      b, s' := ReachInstruction(sem, prog, m, t);
      ls := a + b;
      SysRunConcat(sem, prog, a, b, s);
      ScheduleConcat(a, b);
    }
  }

  lemma {:induction false} LiftQuiet(sem: Semantics, prog: Program, steps: seq<(Tid, int)>, s: System)
    returns (ls: seq<Action>, s': System)
    requires ProgramOk(prog) && SysOk(prog, s) && JavaRuns(s.agent) && Quiet(s)
    requires Run(sem, EraseProgram(prog), steps, Proj(prog, s.vm)).Some?
    ensures SysRun(sem, prog, ls, s) == Some(s') && Schedule(ls) == steps
    ensures Run(sem, EraseProgram(prog), steps, Proj(prog, s.vm)) == Some(Proj(prog, s'.vm))
    decreases steps
  {
    hide StateOk, Proj;
    if steps == [] {
      ls, s' := [], s;
    } else {
      var (t, input) := steps[0];
      var a, m := ReachInstruction(sem, prog, s, t);
      StepCommutes(sem, prog, t, input, m.vm);
      assert PhaseOf(m.busy, t).Idle? by { assert t !in BusyThreads(m); }
      var n := SysStep(sem, prog, App(t, input), m).value;
      SysStepKeepsOk(sem, prog, App(t, input), m);
      assert BusyThreads(n) == BusyThreads(m);
      var b;
      b, s' := LiftQuiet(sem, prog, steps[1..], n);
      ls := a + ([App(t, input)] + b);
      assert ([App(t, input)] + b)[1..] == b;
      SysRunConcat(sem, prog, a, [App(t, input)] + b, s);
      ScheduleConcat(a, [App(t, input)] + b);
    }
  }

  /** Start-up runs through without the application. */
  lemma {:induction false} FinishStartUp(sem: Semantics, prog: Program, s: System) returns (ls: seq<Action>, s': System)
    requires ProgramOk(prog) && SysOk(prog, s)
    ensures SysRun(sem, prog, ls, s) == Some(s') && Schedule(ls) == []
    ensures SysOk(prog, s') && JavaRuns(s'.agent) && s'.vm == s.vm
    decreases 10 - s.agent.stage.Rank()
  {
    if JavaRuns(s.agent) {
      ls, s' := [], s;
    } else {
      StageActionSafe(s.agent, s.busy);
      SysStepKeepsOk(sem, prog, Stage, s);
      ls, s' := FinishStartUp(sem, prog, SysStep(sem, prog, Stage, s).value);
      ls := [Stage] + ls;
      assert ls[1..] == ls[1..][..];
    }
  }

  /** Every run without event calls is the projection of a run with them: from any reachable state, whatever
      event calls and start-up steps are in progress, and with exactly the given schedule of application steps. */
  lemma {:induction false} RunLifts(sem: Semantics, prog: Program, steps: seq<(Tid, int)>, s: System)
          returns (ls: seq<Action>)
    requires ProgramOk(prog) && SysOk(prog, s)
    requires Run(sem, EraseProgram(prog), steps, Proj(prog, s.vm)).Some?
    ensures SysRun(sem, prog, ls, s).Some? && Schedule(ls) == steps
    ensures Run(sem, EraseProgram(prog), steps, Proj(prog, s.vm)) == Some(Proj(prog, SysRun(sem, prog, ls, s).value.vm))
  {
    var a, s1 := FinishStartUp(sem, prog, s);
    var b, s2 := Quiesce(sem, prog, s1);
    var c, s3 := LiftQuiet(sem, prog, steps, s2);
    ls := a + (b + c);
    SysRunConcat(sem, prog, b, c, s1);
    SysRunConcat(sem, prog, a, b + c, s);
    ScheduleConcat(b, c);
    ScheduleConcat(a, b + c);
  }
}

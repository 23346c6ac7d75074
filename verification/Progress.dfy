/**
  Instrumentation adds no deadlock and no unbounded delay. The forwarding mutex is a leaf lock: whoever holds it can
  always move on, so a thread that could step in the original program can step, or wait only for such a holder.
 */
module Progress {
  import opened Wrappers
  import opened Placement
  import opened JavaVm
  import opened Projection
  import opened EventPipeline
  import opened InstrumentedVm
  import opened Simulation
  import opened WholeProgram

  predicate CanMove(sem: Semantics, prog: Program, l: Action, s: System) {
    SysStep(sem, prog, l, s).Some?
  }

  /** `t` is kept out of the channel slot by `u`, and `u` can move on. */
  predicate WaitsFor(sem: Semantics, prog: Program, t: Tid, u: Tid, s: System) {
    t != u && PhaseOf(s.busy, t).AtLock? && s.agent.mutex == Some(JavaThread(u)) && CanMove(sem, prog, Handler(u), s)
  }

  lemma {:induction false} HolderCanMove(sem: Semantics, prog: Program, s: System, u: Tid)
    requires SysOk(prog, s) && s.agent.mutex == Some(JavaThread(u))
    ensures CanMove(sem, prog, Handler(u), s)
  {
    assert PhaseOf(s.busy, u) == Holding || PhaseOf(s.busy, u) == Sent;
  }

  /** In every reachable state, if the original program could let `t` step, then the instrumented program lets `t`
      execute the same instruction, or lets `t` move on inside its event call, or `t` waits for a thread that can
      move on; while the agent is still being loaded, start-up can go on. */
  lemma {:induction false} NoAddedDeadlock(sem: Semantics, prog: Program, s: System, t: Tid, input: int)
    requires ProgramOk(prog) && SysOk(prog, s)
    requires Step(sem, EraseProgram(prog), t, input, Proj(prog, s.vm)).Some?
    ensures if !JavaRuns(s.agent) then CanMove(sem, prog, Stage, s)
            else CanMove(sem, prog, App(t, input), s) || CanMove(sem, prog, Handler(t), s)
                 || exists u :: WaitsFor(sem, prog, t, u, s)
  {
    hide StateOk;
    if !JavaRuns(s.agent) {
      StageActionSafe(s.agent, s.busy);
    } else if PhaseOf(s.busy, t).Idle? {
      if !AtEventCall(prog, s.vm, t) {
        StepCommutes(sem, prog, t, input, s.vm);
      }
    } else if PhaseOf(s.busy, t).AtLock? && s.agent.mutex.Some? {
      HolderIsBusy(prog, s);
      HolderCanMove(sem, prog, s, s.agent.mutex.value.t);
      assert PhaseOf(s.busy, s.agent.mutex.value.t) != AtLock;
      assert WaitsFor(sem, prog, t, s.agent.mutex.value.t, s);
    } else {
      assert AtEventCall(prog, s.vm, t);
    }
  }

  /** An idle thread in front of an application instruction can take it exactly when the original can: the event
      calls change neither who blocks on a monitor nor who gets it. */
  lemma {:induction false} SameBlocking(sem: Semantics, prog: Program, s: System, t: Tid, input: int)
    requires ProgramOk(prog) && SysOk(prog, s) && JavaRuns(s.agent)
    requires PhaseOf(s.busy, t).Idle? && !AtEventCall(prog, s.vm, t)
    ensures CanMove(sem, prog, App(t, input), s) <==> Step(sem, EraseProgram(prog), t, input, Proj(prog, s.vm)).Some?
  {
    StepCommutes(sem, prog, t, input, s.vm);
  }

  lemma {:induction false} ReleaseStep(sem: Semantics, prog: Program, t: Tid, u: Tid, s: System)
    requires SysOk(prog, s) && JavaRuns(s.agent) && PhaseOf(s.busy, t).AtLock? && PhaseOf(s.busy, u) == Sent
    ensures var r := SysStep(sem, prog, Handler(u), s);
            r.Some? && PhaseOf(r.value.busy, t) == AtLock && r.value.agent.mutex == None && r.value.vm == s.vm
            && CanMove(sem, prog, Handler(t), r.value)
  {}

  /** The holder is about to release the slot, or is so after its next step. */
  lemma {:induction false} HolderSteps(sem: Semantics, prog: Program, t: Tid, u: Tid, s: System)
    requires SysOk(prog, s) && JavaRuns(s.agent) && WaitsFor(sem, prog, t, u, s)
    ensures PhaseOf(s.busy, u) == Holding || PhaseOf(s.busy, u) == Sent
    ensures var r := SysStep(sem, prog, Handler(u), s);
            && r.Some? && r.value.vm == s.vm && JavaRuns(r.value.agent)
            && PhaseOf(r.value.busy, t).AtLock? && (PhaseOf(s.busy, u) == Holding ==> PhaseOf(r.value.busy, u) == Sent)
  {}

  /** A thread that waits is kept out for at most two steps of the one it waits for: after these, whatever else that
      thread does, the slot is free and the waiting thread can take it. */
  lemma {:induction false} WaitEnds(sem: Semantics, prog: Program, t: Tid, u: Tid, s: System)
          returns (ls: seq<Action>, s': System)
    requires ProgramOk(prog) && SysOk(prog, s) && JavaRuns(s.agent) && WaitsFor(sem, prog, t, u, s)
    ensures ls == [Handler(u)] || ls == [Handler(u), Handler(u)]
    ensures SysRun(sem, prog, ls, s) == Some(s') && s'.vm == s.vm
    ensures PhaseOf(s'.busy, t).AtLock? && s'.agent.mutex == None && CanMove(sem, prog, Handler(t), s')
  {
    hide SysOk, SysStep, CanMove;
    HolderSteps(sem, prog, t, u, s);
    var s1 := SysStep(sem, prog, Handler(u), s).value;
    SysStepKeepsOk(sem, prog, Handler(u), s);
    if PhaseOf(s.busy, u) == Sent {
      ReleaseStep(sem, prog, t, u, s);
      ls, s' := [Handler(u)], s1;
      RunOne(sem, prog, Handler(u), s, s');
    } else {
      ReleaseStep(sem, prog, t, u, s1);
      ls, s' := [Handler(u), Handler(u)], SysStep(sem, prog, Handler(u), s1).value;
      RunOne(sem, prog, Handler(u), s1, s');
      assert ls[1..] == [Handler(u)];
    }
  }

  lemma {:induction false} RunOne(sem: Semantics, prog: Program, l: Action, s: System, s': System)
    requires SysStep(sem, prog, l, s) == Some(s')
    ensures SysRun(sem, prog, [l], s) == Some(s')
  {
    assert [l][1..] == [];
  }

  // ---------------------------------------------------------------- added work is bounded

  function CountHandler(ls: seq<Action>, t: Tid): nat {
    if ls == [] then 0 else (if ls[0] == Handler(t) then 1 else 0) + CountHandler(ls[1..], t)
  }

  function CountApp(ls: seq<Action>, t: Tid): nat {
    if ls == [] then 0 else (if ls[0].App? && ls[0].t == t then 1 else 0) + CountApp(ls[1..], t)
  }

  /** Every action of a thread is counted, once. */
  lemma {:induction false} ActionsCounted(ls: seq<Action>, t: Tid)
    requires forall i :: 0 <= i < |ls| ==> ls[i] == Handler(t) || (ls[i].App? && ls[i].t == t)
    ensures CountHandler(ls, t) + CountApp(ls, t) == |ls|
    ensures (forall i :: 0 <= i < |ls| ==> ls[i].App?) ==> CountApp(ls, t) == |ls|
  {
    if ls == [] {
    } else {
      assert forall i :: 0 <= i < |ls| - 1 ==> ls[1..][i] == ls[i + 1];
      ActionsCounted(ls[1..], t);
    }
  }

  ghost predicate AllGuarded(prog: Program) {
    forall m :: m in prog ==> Guarded(prog[m]) || forall q :: 0 <= q < |prog[m].insns| ==> !prog[m].insns[q].EventCall?
  }

  /** The work in front of `t`; a thread that does not exist yet may start at an event call. */
  function WorkBound(prog: Program, s: System, t: Tid): nat {
    if t in s.vm.threads then CallWork(prog, s, t) else 7
  }

  lemma {:induction false} WorkIsAtMostSeven(prog: Program, s: System, t: Tid)
    ensures WorkBound(prog, s, t) <= 7
  {
  }

  lemma {:induction false} OtherAppWork(sem: Semantics, prog: Program, u: Tid, input: int, s: System, t: Tid)
    requires u != t && SysStep(sem, prog, App(u, input), s).Some?
    ensures WorkBound(prog, SysStep(sem, prog, App(u, input), s).value, t) <= WorkBound(prog, s, t)
  {
    StepIsLocal(sem, prog, u, input, s.vm, t);
    if t !in s.vm.threads { WorkIsAtMostSeven(prog, SysStep(sem, prog, App(u, input), s).value, t); }
  }

  lemma {:induction false} OtherHandlerWork(prog: Program, u: Tid, s: System, t: Tid)
    requires u != t && SysOk(prog, s) && HandlerStep(prog, u, s).Some?
    ensures WorkBound(prog, HandlerStep(prog, u, s).value, t) == WorkBound(prog, s, t)
  {
    assert PhaseOf(HandlerStep(prog, u, s).value.busy, t) == PhaseOf(s.busy, t);
  }

  lemma {:induction false} StepWork(sem: Semantics, prog: Program, l: Action, s: System, t: Tid)
    requires ProgramOk(prog) && AllGuarded(prog) && SysOk(prog, s) && SysStep(sem, prog, l, s).Some?
    ensures var s' := SysStep(sem, prog, l, s).value;
            WorkBound(prog, s', t) + (if l == Handler(t) then 1 else 0)
              <= WorkBound(prog, s, t) + (if l.App? && l.t == t then 7 else 0)
  {
    var s' := SysStep(sem, prog, l, s).value;
    match l
    case App(u, input) =>
      if u != t { OtherAppWork(sem, prog, u, input, s, t); } else { WorkIsAtMostSeven(prog, s', t); }
    case Handler(u) =>
      if u == t {
        OwnHandlerWork(prog, t, s);
      } else {
        OtherHandlerWork(prog, u, s, t);
      }
    case Stage =>
    case Worker =>
  }

  lemma {:induction false} OwnHandlerWork(prog: Program, t: Tid, s: System)
    requires AllGuarded(prog) && SysOk(prog, s) && HandlerStep(prog, t, s).Some?
    ensures WorkBound(prog, HandlerStep(prog, t, s).value, t) + 1 <= WorkBound(prog, s, t)
  {
    if PhaseOf(s.busy, t).AtReturn? {
      assert AtEventCall(prog, s.vm, t);
      var f := s.vm.threads[t].frames[0];
      assert Guarded(prog[f.mid]);
      assert prog[f.mid].insns[f.pc + 1].Monitor?;
    }
  }

  /** Over any run, a thread makes at most seven steps inside event calls for every application step it makes, on top
      of what its current event call still needs. */
  lemma {:induction false} AddedWorkIsBounded(sem: Semantics, prog: Program, ls: seq<Action>, s: System, t: Tid)
    requires ProgramOk(prog) && AllGuarded(prog) && SysOk(prog, s) && SysRun(sem, prog, ls, s).Some?
    ensures CountHandler(ls, t) + WorkBound(prog, SysRun(sem, prog, ls, s).value, t)
            <= WorkBound(prog, s, t) + 7 * CountApp(ls, t)
    ensures WorkBound(prog, s, t) <= 7
  {
    if ls == [] {
    } else {
      StepWork(sem, prog, ls[0], s, t);
      SysStepKeepsOk(sem, prog, ls[0], s);
      AddedWorkIsBounded(sem, prog, ls[1..], SysStep(sem, prog, ls[0], s).value, t);
    }
  }

  // ---------------------------------------------------------------- from loading the agent on

  /** For every method set, any part of it instrumented, and every reachable state of the instrumented program: a
      thread that could go on in the original program can go on, or waits for one that can; and no thread has
      spent more than seven steps in event calls per application step, one call in progress apart. */
  lemma {:induction false} InstrumentedProgramProgresses(sem: Semantics, h: string, ms: Methods, on: set<MethodId>,
          ls: seq<Action>, s: State, t: Tid, input: int)
    requires MethodsOk(h, ms) && Initial(ms, s)
    requires SysRun(sem, InstrumentedProgram(h, ms, on), ls, Boot(s)).Some?
    ensures var p := InstrumentedProgram(h, ms, on); var s' := SysRun(sem, p, ls, Boot(s)).value;
            && CountHandler(ls, t) <= 7 * CountApp(ls, t) + 7
            && (Step(sem, OriginalProgram(h, ms), t, input, Proj(p, s'.vm)).Some? ==>
                  if !JavaRuns(s'.agent) then CanMove(sem, p, Stage, s')
                  else CanMove(sem, p, App(t, input), s') || CanMove(sem, p, Handler(t), s')
                       || exists u :: WaitsFor(sem, p, t, u, s'))
  {
    var p := InstrumentedProgram(h, ms, on);
    ErasedIsOriginal(h, ms, on);
    InitialProjects(h, ms, on, s);
    BootOk(p, s);
    SysRunKeepsOk(sem, p, ls, Boot(s));
    InstrumentedAllGuarded(h, ms, on);
    AddedWorkIsBounded(sem, p, ls, Boot(s), t);
    var s' := SysRun(sem, p, ls, Boot(s)).value;
    if Step(sem, OriginalProgram(h, ms), t, input, Proj(p, s'.vm)).Some? {
      NoAddedDeadlock(sem, p, s', t, input);
    }
  }

  lemma {:induction false} InstrumentedAllGuarded(h: string, ms: Methods, on: set<MethodId>)
    requires MethodsOk(h, ms)
    ensures AllGuarded(InstrumentedProgram(h, ms, on))
  {
    var p := InstrumentedProgram(h, ms, on);
    forall m | m in p ensures Guarded(p[m]) || forall q :: 0 <= q < |p[m].insns| ==> !p[m].insns[q].EventCall? {
      if m in on {
        InstrumentedIsGuarded(h, ms[m]);
      } else {
        OriginalHasNoEventCalls(h, ms[m], ms[m]);
      }
    }
  }
}

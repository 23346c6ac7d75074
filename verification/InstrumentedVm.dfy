/**
  The virtual machine running instrumented code next to the agent: application steps, the steps of event calls,
  start-up and JVM phases, and the worker thread, interleaved in any order.
 */
module InstrumentedVm {
  import opened Wrappers
  import opened Bytecode
  import opened JavaVm
  import opened EventPipeline

  datatype System = System(vm: State, agent: Agent, busy: Phases)

  datatype Action =
    | App(t: Tid, input: int)  // thread t executes an instruction or unwinds a frame
    | Handler(t: Tid)          // thread t moves on inside an event call
    | Stage                    // start-up or the next JVM phase
    | Worker                   // the worker thread receives a message

  function KindAt(prog: Program, s: State, t: Tid): Kind
    requires AtEventCall(prog, s, t)
  {
    InsnAt(prog, s.threads[t].frames[0]).kind
  }

  /** The event call of `t` returns; its descriptor is `()V`, so only the position changes. */
  function ReturnFromCall(s: State, t: Tid): State
    requires Alive(s, t)
  {
    var f := s.threads[t].frames[0];
    SetTop(s, t, Goto(f, f.pc + 1, f.data), s.threads[t].mode, s.shared)
  }

  function HandlerStep(prog: Program, t: Tid, s: System): Option<System> {
    match PhaseOf(s.busy, t)
    case Idle =>
      if AtEventCall(prog, s.vm, t) then Some(s.(busy := s.busy[t := AtFlag(KindAt(prog, s.vm, t))])) else None
    case AtReturn =>
      if Alive(s.vm, t) then Some(System(ReturnFromCall(s.vm, t), s.agent, s.busy[t := Idle])) else None
    case ph =>
      var r := HandlerAction(s.agent, t, ph);
      if r.None? then None else Some(System(s.vm, r.value.0, s.busy[t := r.value.1]))
  }

  function SysStep(sem: Semantics, prog: Program, l: Action, s: System): Option<System> {
    if s.agent.aborted then None
    else match l
      case App(t, input) =>
        if !JavaRuns(s.agent) || !PhaseOf(s.busy, t).Idle? then None
        else
          var r := Step(sem, prog, t, input, s.vm);
          if r.None? then None else Some(s.(vm := r.value))
      case Handler(t) => if !JavaRuns(s.agent) then None else HandlerStep(prog, t, s)
      case Stage =>
        var r := StageAction(s.agent);
        if r.None? then None else Some(s.(agent := r.value))
      case Worker =>
        var r := WorkerAction(s.agent);
        if r.None? then None else Some(s.(agent := r.value))
  }

  function SysRun(sem: Semantics, prog: Program, ls: seq<Action>, s: System): Option<System> {
    if ls == [] then Some(s)
    else
      var r := SysStep(sem, prog, ls[0], s);
      if r.None? then None else SysRun(sem, prog, ls[1..], r.value)
  }

  /** The state before the agent library is loaded, with the application in any well-formed state. */
  function Boot(vm: State): System {
    System(vm, BOOT, map[])
  }

  /** A thread that is inside an event call stands at that call. */
  ghost predicate SysOk(prog: Program, s: System) {
    && StateOk(prog, s.vm)
    && Inv(s.agent, s.busy)
    && (forall t :: !PhaseOf(s.busy, t).Idle? ==> AtEventCall(prog, s.vm, t))
    && (forall t :: PhaseOf(s.busy, t).AtFlag? || PhaseOf(s.busy, t).AtCount? ==>
          AtEventCall(prog, s.vm, t) && PhaseOf(s.busy, t).kind == KindAt(prog, s.vm, t))
    && (forall t :: PhaseOf(s.busy, t) in {AtLock, Holding, Sent} ==>
          AtEventCall(prog, s.vm, t) && KindAt(prog, s.vm, t) == Enter)
  }

  /** A step of `t` leaves the other threads where they are, except that it may start one. */
  lemma {:induction false} StepIsLocal(sem: Semantics, prog: Program, t: Tid, input: int, s: State, u: Tid)
    requires u != t && Step(sem, prog, t, input, s).Some?
    ensures var s' := Step(sem, prog, t, input, s).value;
            u in s.threads ==> u in s'.threads && s'.threads[u] == s.threads[u]
    ensures var s' := Step(sem, prog, t, input, s).value;
            u !in s.threads && u in s'.threads ==>
              exists m, args :: m in prog && s'.threads[u] == Thread([Frame(m, 0, args)], Running)
  {
    var f := s.threads[t].frames[0];
    if s.threads[t].mode.Running? && InsnAt(prog, f).Plain? {
      var o := sem.exec(InsnAt(prog, f).op, input, t, f.mid, f.data, s.shared);
      if o.Start? && o.child == u {
        assert Step(sem, prog, t, input, s).value.threads[u] == Thread([Frame(o.mid, 0, o.args)], Running);
      }
    }
  }

  lemma {:induction false} ReturnKeepsOk(prog: Program, s: State, t: Tid)
    requires StateOk(prog, s) && AtEventCall(prog, s, t)
    ensures StateOk(prog, ReturnFromCall(s, t))
  {
    var f := s.threads[t].frames[0];
    SetTopOk(prog, s, t, Goto(f, f.pc + 1, f.data), Running, s.shared);
  }

  lemma {:induction false} HandlerStepKeepsOk(prog: Program, t: Tid, s: System)
    requires SysOk(prog, s) && JavaRuns(s.agent)
    ensures HandlerStep(prog, t, s).Some? ==> SysOk(prog, HandlerStep(prog, t, s).value)
  {
    hide Inv;
    var r := HandlerStep(prog, t, s);
    if r.Some? {
      var s' := r.value;
      assert forall u :: u != t ==> PhaseOf(s'.busy, u) == PhaseOf(s.busy, u);
      match PhaseOf(s.busy, t)
      case Idle => SetPhaseSafe(s.agent, s.busy, t, AtFlag(KindAt(prog, s.vm, t)));
      case AtReturn =>
        SetPhaseSafe(s.agent, s.busy, t, Idle);
        ReturnKeepsOk(prog, s.vm, t);
        assert forall u :: u != t && AtEventCall(prog, s.vm, u) ==>
            AtEventCall(prog, s'.vm, u) && KindAt(prog, s'.vm, u) == KindAt(prog, s.vm, u);
      case _ => HandlerActionSafe(s.agent, s.busy, t);
    }
  }

  /** Every step keeps the invariant; in particular no `unwrap` ever fails. */
  lemma {:induction false} SysStepKeepsOk(sem: Semantics, prog: Program, l: Action, s: System)
    requires ProgramOk(prog) && SysOk(prog, s)
    ensures SysStep(sem, prog, l, s).Some? ==> SysOk(prog, SysStep(sem, prog, l, s).value)
  {
    var r := SysStep(sem, prog, l, s);
    if r.Some? {
      match l
      case App(t, input) =>
        StepKeepsOk(sem, prog, t, input, s.vm);
        forall u | !PhaseOf(s.busy, u).Idle?
          ensures AtEventCall(prog, r.value.vm, u) && KindAt(prog, r.value.vm, u) == KindAt(prog, s.vm, u)
        {
          StepIsLocal(sem, prog, t, input, s.vm, u);
        }
      case Handler(t) => HandlerStepKeepsOk(prog, t, s);
      case Stage => StageActionSafe(s.agent, s.busy);
      case Worker => WorkerActionSafe(s.agent, s.busy);
    }
  }

  /** Who can move: while the agent is being loaded only start-up; a thread either executes its own instructions or is
      inside the event call it stands at; after a panic in native code nobody. */
  lemma {:induction false} WhoMoves(sem: Semantics, prog: Program, l: Action, s: System)
    requires SysOk(prog, s) && SysStep(sem, prog, l, s).Some?
    ensures !s.agent.aborted
    ensures s.agent.stage in {OnLoad, Configured, ChannelMade, SlotLocked, SlotFilled, SlotReleased} ==> l == Stage
    ensures l.App? ==> PhaseOf(s.busy, l.t).Idle? && !AtEventCall(prog, s.vm, l.t)
    ensures l.Handler? ==> AtEventCall(prog, s.vm, l.t)
  {}

  lemma {:induction false} SysRunKeepsOk(sem: Semantics, prog: Program, ls: seq<Action>, s: System)
    requires ProgramOk(prog) && SysOk(prog, s)
    ensures SysRun(sem, prog, ls, s).Some? ==> SysOk(prog, SysRun(sem, prog, ls, s).value)
  {
    if ls == [] {
    } else {
      SysStepKeepsOk(sem, prog, ls[0], s);
      var r := SysStep(sem, prog, ls[0], s);
      if r.Some? { SysRunKeepsOk(sem, prog, ls[1..], r.value); }
    }
  }

  lemma {:induction false} BootOk(prog: Program, vm: State)
    requires StateOk(prog, vm)
    ensures SysOk(prog, Boot(vm))
  {}

  /** Start-up safety, over every run from loading the agent on: while the flag is set, the slot holds a sender whose
      receiver is alive; the mutex is never poisoned; no native call and no `recv` ever panics. */
  lemma {:induction false} NoUnwrapFails(sem: Semantics, prog: Program, ls: seq<Action>, vm: State)
    requires ProgramOk(prog) && StateOk(prog, vm) && SysRun(sem, prog, ls, Boot(vm)).Some?
    ensures var a := SysRun(sem, prog, ls, Boot(vm)).value.agent;
            && !a.aborted && !a.poisoned && !a.worker.Panicked?
            && (a.flag ==> a.slot && a.receiver.Receiving? && a.worker.Looping?)
  {
    BootOk(prog, vm);
    SysRunKeepsOk(sem, prog, ls, Boot(vm));
  }
}

/**
  A multi-threaded virtual machine in the style of the Java Virtual Machine Specification (SE 15, sections 2.6,
  2.10, 2.11.10 and 6.5): frames, operand stacks, reentrant monitors, branches, exception tables.

  Only MONITORENTER and MONITOREXIT have a fixed meaning here. Every other instruction does what `Semantics.exec`
  says, so what is proved holds for every instruction set whose instructions do not read their own address.
  A step is a function of the thread that is scheduled and an `input` (the environment: clocks, I/O, allocation).
 */
module JavaVm {
  import opened Wrappers
  import opened Bytecode

  type Tid = nat
  datatype MethodId = MethodId(owner: string, name: string, desc: string)
  type Program = map<MethodId, Code>

  datatype Value = Null | Ref(address: nat) | Num(n: int)
  datatype Data = Data(locals: seq<Value>, stack: seq<Value>)  // the top of the operand stack comes first
  datatype Lock = Lock(owner: Tid, count: nat)
  datatype Shared = Shared(heap: map<int, Value>, monitors: map<nat, Lock>)

  datatype Frame = Frame(mid: MethodId, pc: nat, data: Data)
  datatype Mode = Running | Unwinding(exc: Value)
  datatype Thread = Thread(frames: seq<Frame>, mode: Mode)  // the current frame comes first
  datatype State = State(threads: map<Tid, Thread>, shared: Shared)

  datatype Fault = NullMonitor | NotOwner

  /** What a plain instruction does; `Blocked` is the outcome of, say, waiting for a synchronized method's lock. */
  datatype Outcome =
    | Next(data: Data, shared: Shared)
    | Jump(target: nat, data: Data, shared: Shared)
    | Raise(exc: Value, shared: Shared)
    | Invoke(mid: MethodId, args: Data, data: Data, shared: Shared)
    | Result(values: seq<Value>, shared: Shared)
    | Start(child: Tid, mid: MethodId, args: Data, data: Data, shared: Shared)
    | Blocked

  datatype Semantics = Semantics(
    exec: (Op, int, Tid, MethodId, Data, Shared) -> Outcome,
    catches: (string, Value, Shared) -> bool,
    fault: (Fault, Shared) -> (Value, Shared))

  predicate AtInsn(prog: Program, f: Frame) {
    f.mid in prog && f.pc < |prog[f.mid].insns|
  }

  function InsnAt(prog: Program, f: Frame): Insn
    requires AtInsn(prog, f)
  {
    prog[f.mid].insns[f.pc]
  }

  function SetTop(s: State, t: Tid, f: Frame, mode: Mode, shared: Shared): State
    requires t in s.threads && s.threads[t].frames != []
  {
    State(s.threads[t := Thread([f] + s.threads[t].frames[1..], mode)], shared)
  }

  function Goto(f: Frame, pc: nat, data: Data): Frame {
    Frame(f.mid, pc, data)
  }

  /** The index of the first entry that covers `pc` and catches `exc`. */
  function FindHandler(sem: Semantics, table: seq<Range>, pc: nat, exc: Value, shared: Shared): (i: nat)
    ensures i <= |table|
  {
    if table == [] || (table[0].Covers(pc) && sem.catches(table[0].catchType, exc, shared)) then 0
    else 1 + FindHandler(sem, table[1..], pc, exc, shared)
  }

  /** One step of exception handling: enter the handler, or leave the frame. */
  function Unwind(sem: Semantics, prog: Program, t: Tid, s: State): State
    requires t in s.threads && s.threads[t].frames != [] && s.threads[t].mode.Unwinding?
    requires s.threads[t].frames[0].mid in prog
  {
    var th := s.threads[t];
    var f := th.frames[0];
    var table := prog[f.mid].table;
    var i := FindHandler(sem, table, f.pc, th.mode.exc, s.shared);
    if i < |table| then SetTop(s, t, Goto(f, table[i].handler, Data(f.data.locals, [th.mode.exc])), Running, s.shared)
    else s.(threads := s.threads[t := Thread(th.frames[1..], th.mode)])
  }

  function Throw(sem: Semantics, t: Tid, s: State, fault: Fault): State
    requires t in s.threads && s.threads[t].frames != []
  {
    var (exc, shared) := sem.fault(fault, s.shared);
    SetTop(s, t, s.threads[t].frames[0], Unwinding(exc), shared)
  }

  /** The lock after MONITORENTER by `t`, or None if `t` has to wait. */
  function Acquire(monitors: map<nat, Lock>, a: nat, t: Tid): Option<Lock> {
    if a !in monitors then Some(Lock(t, 1))
    else if monitors[a].owner == t then Some(Lock(t, monitors[a].count + 1))
    else None
  }

  function Release(monitors: map<nat, Lock>, a: nat): map<nat, Lock>
    requires a in monitors
  {
    if monitors[a].count <= 1 then monitors - {a} else monitors[a := Lock(monitors[a].owner, monitors[a].count - 1)]
  }

  function MonitorStep(sem: Semantics, t: Tid, kind: Kind, s: State): Option<State>
    requires t in s.threads && s.threads[t].frames != []
  {
    var f := s.threads[t].frames[0];
    if f.data.stack == [] || f.data.stack[0].Num? then None
    else if f.data.stack[0].Null? then Some(Throw(sem, t, s, NullMonitor))
    else
      var a := f.data.stack[0].address;
      var next := Goto(f, f.pc + 1, Data(f.data.locals, f.data.stack[1..]));
      var monitors := s.shared.monitors;
      if kind.Enter? then
        var lock := Acquire(monitors, a, t);
        if lock.None? then None
        else Some(SetTop(s, t, next, Running, s.shared.(monitors := monitors[a := lock.value])))
      else if a !in monitors || monitors[a].owner != t then Some(Throw(sem, t, s, NotOwner))
      else Some(SetTop(s, t, next, Running, s.shared.(monitors := Release(monitors, a))))
  }

  function PlainStep(prog: Program, t: Tid, targets: seq<nat>, o: Outcome, s: State): Option<State>
    requires t in s.threads && s.threads[t].frames != []
  {
    var frames := s.threads[t].frames;
    var f := frames[0];
    match o
    case Next(data, shared) => Some(SetTop(s, t, Goto(f, f.pc + 1, data), Running, shared))
    case Jump(k, data, shared) =>
      if k >= |targets| then None else Some(SetTop(s, t, Goto(f, targets[k], data), Running, shared))
    case Raise(exc, shared) => Some(SetTop(s, t, f, Unwinding(exc), shared))
    case Invoke(m, args, data, shared) =>
      if m !in prog then None
      else Some(State(s.threads[t := Thread([Frame(m, 0, args), Goto(f, f.pc, data)] + frames[1..], Running)], shared))
    case Result(values, shared) =>
      Some(State(s.threads[t := Thread(Return(frames[1..], values), Running)], shared))
    case Start(child, m, args, data, shared) =>
      if m !in prog || child in s.threads then None
      else
        var s' := SetTop(s, t, Goto(f, f.pc + 1, data), Running, shared);
        Some(s'.(threads := s'.threads[child := Thread([Frame(m, 0, args)], Running)]))
    case Blocked => None
  }

  function Return(frames: seq<Frame>, values: seq<Value>): seq<Frame> {
    if frames == [] then []
    else
      var f := frames[0];
      [Goto(f, f.pc + 1, Data(f.data.locals, values + f.data.stack))] + frames[1..]
  }

  predicate Alive(s: State, t: Tid) {
    t in s.threads && s.threads[t].frames != []
  }

  predicate AtEventCall(prog: Program, s: State, t: Tid) {
    Alive(s, t) && s.threads[t].mode.Running? &&
    AtInsn(prog, s.threads[t].frames[0]) && InsnAt(prog, s.threads[t].frames[0]).EventCall?
  }

  /** One step of thread `t`. An event call is no instruction of the machine: a thread waits there until
      the event handler has run. */
  function Step(sem: Semantics, prog: Program, t: Tid, input: int, s: State): Option<State> {
    if !Alive(s, t) then None
    else
      var th := s.threads[t];
      var f := th.frames[0];
      if f.mid !in prog then None
      else if th.mode.Unwinding? then Some(Unwind(sem, prog, t, s))
      else if !AtInsn(prog, f) then None
      else match InsnAt(prog, f)
        case Monitor(kind) => MonitorStep(sem, t, kind, s)
        case EventCall(_) => None
        case Plain(op, targets) => PlainStep(prog, t, targets, sem.exec(op, input, t, f.mid, f.data, s.shared), s)
  }

  /** A run is given by who moves and on what input; it is None once a chosen thread cannot move. */
  function Run(sem: Semantics, prog: Program, schedule: seq<(Tid, int)>, s: State): Option<State> {
    if schedule == [] then Some(s)
    else
      var next := Step(sem, prog, schedule[0].0, schedule[0].1, s);
      if next.None? then None else Run(sem, prog, schedule[1..], next.value)
  }

  // ---------------------------------------------------------------- well-formed code and states

  predicate CodeOk(c: Code) {
    && (forall q, j :: 0 <= q < |c.insns| && c.insns[q].Plain? && 0 <= j < |c.insns[q].targets| ==>
          c.insns[q].targets[j] < |c.insns|)
    && (forall i :: 0 <= i < |c.table| ==>
          c.table[i].start <= |c.insns| && c.table[i].end <= |c.insns| && c.table[i].handler < |c.insns|)
  }

  predicate ProgramOk(prog: Program) {
    forall m :: m in prog ==> CodeOk(prog[m])
  }

  /** The frame stands at an instruction that is not an event call. */
  predicate AtReal(prog: Program, f: Frame) {
    AtInsn(prog, f) && !InsnAt(prog, f).EventCall?
  }

  /** A frame below the top stands at the instruction that called; so does a frame an exception came from. */
  predicate ThreadOk(prog: Program, th: Thread) {
    && (forall i :: 0 <= i < |th.frames| ==>
          th.frames[i].mid in prog && th.frames[i].pc <= |prog[th.frames[i].mid].insns|)
    && (forall i :: 1 <= i < |th.frames| ==> AtReal(prog, th.frames[i]))
    && (th.mode.Unwinding? && th.frames != [] ==> AtReal(prog, th.frames[0]))
  }

  predicate StateOk(prog: Program, s: State) {
    forall t :: t in s.threads ==> ThreadOk(prog, s.threads[t])
  }

  predicate FrameOk(prog: Program, f: Frame) {
    f.mid in prog && f.pc <= |prog[f.mid].insns|
  }

  lemma {:induction false} UpdateOk(prog: Program, s: State, t: Tid, th: Thread, shared: Shared)
    requires StateOk(prog, s) && ThreadOk(prog, th)
    ensures StateOk(prog, State(s.threads[t := th], shared))
  {}

  lemma {:induction false} SetTopOk(prog: Program, s: State, t: Tid, f: Frame, mode: Mode, shared: Shared)
    requires StateOk(prog, s) && Alive(s, t) && FrameOk(prog, f) && (mode.Unwinding? ==> AtReal(prog, f))
    ensures StateOk(prog, SetTop(s, t, f, mode, shared))
  {
    var frames := s.threads[t].frames;
    assert ThreadOk(prog, s.threads[t]);
    assert forall i :: 1 <= i < |frames| ==> ([f] + frames[1..])[i] == frames[i];
    UpdateOk(prog, s, t, Thread([f] + frames[1..], mode), shared);
  }

  lemma {:induction false} PopOk(prog: Program, th: Thread, mode: Mode)
    requires ThreadOk(prog, th) && th.frames != []
    ensures ThreadOk(prog, Thread(th.frames[1..], mode))
  {
    assert forall i :: 0 <= i < |th.frames| - 1 ==> th.frames[1..][i] == th.frames[i + 1];
  }

  lemma {:induction false} UnwindOk(sem: Semantics, prog: Program, t: Tid, s: State)
    requires ProgramOk(prog) && StateOk(prog, s) && Alive(s, t) && s.threads[t].mode.Unwinding?
    requires s.threads[t].frames[0].mid in prog
    ensures StateOk(prog, Unwind(sem, prog, t, s))
  {
    var th := s.threads[t];
    var f := th.frames[0];
    var table := prog[f.mid].table;
    var i := FindHandler(sem, table, f.pc, th.mode.exc, s.shared);
    if i < |table| {
      assert CodeOk(prog[f.mid]);
      SetTopOk(prog, s, t, Goto(f, table[i].handler, Data(f.data.locals, [th.mode.exc])), Running, s.shared);
    } else {
      PopOk(prog, th, th.mode);
      UpdateOk(prog, s, t, Thread(th.frames[1..], th.mode), s.shared);
    }
  }

  lemma {:induction false} MonitorOk(sem: Semantics, prog: Program, t: Tid, kind: Kind, s: State)
    requires ProgramOk(prog) && StateOk(prog, s) && Alive(s, t) && AtReal(prog, s.threads[t].frames[0])
    ensures var r := MonitorStep(sem, t, kind, s); r.Some? ==> StateOk(prog, r.value)
  {
    var f := s.threads[t].frames[0];
    var r := MonitorStep(sem, t, kind, s);
    if r.Some? {
      var g := r.value.threads[t].frames[0];
      SetTopOk(prog, s, t, g, r.value.threads[t].mode, r.value.shared);
      assert r.value == SetTop(s, t, g, r.value.threads[t].mode, r.value.shared);
    }
  }

  lemma {:induction false} InvokeOk(prog: Program, t: Tid, m: MethodId, args: Data, data: Data, shared: Shared,
          s: State)
    requires ProgramOk(prog) && StateOk(prog, s) && Alive(s, t) && AtReal(prog, s.threads[t].frames[0]) && m in prog
    ensures var frames := s.threads[t].frames;
            var f := frames[0];
            StateOk(prog, State(s.threads[t := Thread([Frame(m, 0, args), Goto(f, f.pc, data)] + frames[1..], Running)],
                shared))
  {
    var th := s.threads[t];
    assert ThreadOk(prog, th);
    var f := th.frames[0];
    var frames := [Frame(m, 0, args), Goto(f, f.pc, data)] + th.frames[1..];
    assert forall i :: 2 <= i < |frames| ==> frames[i] == th.frames[i - 1];
    UpdateOk(prog, s, t, Thread(frames, Running), shared);
  }

  lemma {:induction false} ResultOk(prog: Program, t: Tid, values: seq<Value>, shared: Shared, s: State)
    requires StateOk(prog, s) && Alive(s, t)
    ensures StateOk(prog, State(s.threads[t := Thread(Return(s.threads[t].frames[1..], values), Running)], shared))
  {
    var th := s.threads[t];
    PopOk(prog, th, Running);
    var rest := th.frames[1..];
    var back := Return(rest, values);
    assert forall i :: 1 <= i < |rest| ==> back[i] == rest[i];
    if rest != [] { assert AtReal(prog, th.frames[1]); }
    UpdateOk(prog, s, t, Thread(back, Running), shared);
  }

  lemma {:induction false} StartOk(prog: Program, t: Tid, child: Tid, m: MethodId, args: Data, f: Frame, shared: Shared,
          s: State)
    requires ProgramOk(prog) && StateOk(prog, s) && Alive(s, t) && FrameOk(prog, f) && m in prog && child !in s.threads
    ensures var s' := SetTop(s, t, f, Running, shared);
            StateOk(prog, s'.(threads := s'.threads[child := Thread([Frame(m, 0, args)], Running)]))
  {
    SetTopOk(prog, s, t, f, Running, shared);
    UpdateOk(prog, SetTop(s, t, f, Running, shared), child, Thread([Frame(m, 0, args)], Running), shared);
  }

  lemma {:induction false} PlainOk(prog: Program, t: Tid, o: Outcome, s: State)
    requires ProgramOk(prog) && StateOk(prog, s) && Alive(s, t) && AtReal(prog, s.threads[t].frames[0])
    requires InsnAt(prog, s.threads[t].frames[0]).Plain?
    ensures var r := PlainStep(prog, t, InsnAt(prog, s.threads[t].frames[0]).targets, o, s);
            r.Some? ==> StateOk(prog, r.value)
  {
    var th := s.threads[t];
    var f := th.frames[0];
    var targets := InsnAt(prog, f).targets;
    assert CodeOk(prog[f.mid]) && ThreadOk(prog, th);
    match o
    case Next(data, shared) => SetTopOk(prog, s, t, Goto(f, f.pc + 1, data), Running, shared);
    case Jump(k, data, shared) =>
      if k < |targets| { SetTopOk(prog, s, t, Goto(f, targets[k], data), Running, shared); }
    case Raise(exc, shared) => SetTopOk(prog, s, t, f, Unwinding(exc), shared);
    case Invoke(m, args, data, shared) =>
      if m in prog { InvokeOk(prog, t, m, args, data, shared, s); }
    case Result(values, shared) => ResultOk(prog, t, values, shared, s);
    case Start(child, m, args, data, shared) =>
      if m in prog && child !in s.threads { StartOk(prog, t, child, m, args, Goto(f, f.pc + 1, data), shared, s); }
    case Blocked =>
  }

  lemma {:induction false} StepKeepsOk(sem: Semantics, prog: Program, t: Tid, input: int, s: State)
    requires ProgramOk(prog) && StateOk(prog, s)
    ensures var r := Step(sem, prog, t, input, s); r.Some? ==> StateOk(prog, r.value)
  {
    if Alive(s, t) && s.threads[t].frames[0].mid in prog {
      var f := s.threads[t].frames[0];
      if s.threads[t].mode.Unwinding? {
        UnwindOk(sem, prog, t, s);
      } else if AtReal(prog, f) {
        match InsnAt(prog, f)
        case Monitor(kind) => MonitorOk(sem, prog, t, kind, s);
        case Plain(op, targets) => PlainOk(prog, t, sem.exec(op, input, t, f.mid, f.data, s.shared), s);
      }
    }
  }
}

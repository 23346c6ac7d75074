/**
  The handler as code. In the program that the loaded classes make up, running the method an inserted call names does
  what the phases of `EventPipeline` say: it reads the flag; if the flag is set it increments the counter of its kind,
  once, in Java's `int` arithmetic, and calls the native method of its kind; and it returns behind the call.
 */
module HandlerRuns {
  import opened Wrappers
  import opened Bytecode
  import opened InsertedCalls
  import opened ClassFiles
  import opened HandlerClasses
  import opened GraftedHandler
  import opened JavaVm
  import opened EventPipeline
  import opened InstrumentedVm
  import opened ClassPrograms
  import opened WholeProgram
  import opened AgentProgram
  import Reentry

  // ---------------------------------------------------------------- what the instructions of the handler do

  /** Where the heap keeps the three static fields, and how often each native method was called. */
  const FLAG_CELL := 0
  const ENTER_CELL := 1
  const EXIT_CELL := 2
  const ENTER_CALLS := 3
  const EXIT_CALLS := 4

  /** The cell of a static field. */
  function StaticCell(owner: string, name: string): Option<int> {
    if owner == OBJECT && name == FLAG then Some(FLAG_CELL)
    else if owner == EVENTS_NAME && name == ENTER_COUNTER then Some(ENTER_CELL)
    else if owner == EVENTS_NAME && name == EXIT_COUNTER then Some(EXIT_CELL)
    else None
  }

  /** The cell that counts the calls of a native method. */
  function NativeCell(m: MethodId): Option<int> {
    if m == MethodId(EVENTS_NAME, NATIVE_ENTER, VOID_DESC) then Some(ENTER_CALLS)
    else if m == MethodId(EVENTS_NAME, NATIVE_EXIT, VOID_DESC) then Some(EXIT_CALLS)
    else None
  }

  /** The Java `int` after `n`. */
  function NextInt(n: int): int {
    if n == 0x7fff_ffff then -0x8000_0000 else n + 1
  }

  function SetCell(shared: Shared, cell: int, v: Value): Shared {
    shared.(heap := shared.heap[cell := v])
  }

  /** Adds one to the number in a cell. */
  function Increment(shared: Shared, cell: int): Option<Shared> {
    if cell !in shared.heap || !shared.heap[cell].Num? then None
    else Some(SetCell(shared, cell, Num(NextInt(shared.heap[cell].n))))
  }

  function Push(data: Data, v: Value): Data {
    Data(data.locals, [v] + data.stack)
  }

  function Pop(data: Data): Data
    requires data.stack != []
  {
    Data(data.locals, data.stack[1..])
  }

  /** The instructions that the handler consists of (section 6.5 of the Java Virtual Machine Specification); the counter
      class and the native methods are taken as given. */
  function Exec(op: Op, data: Data, shared: Shared): Outcome {
    match op
    case FieldOp(opcode, owner, name, _) => FieldExec(opcode, StaticCell(owner, name), data, shared)
    case CallOp(opcode, owner, name, desc, _) =>
      if opcode == INVOKESTATIC then StaticCall(MethodId(owner, name, desc), data, shared)
      else if opcode == INVOKEVIRTUAL && owner == COUNTER_NAME && name == "incrementAndGet" && desc == "()I"
      then IncrementAndGet(data, shared)
      else if opcode == INVOKEVIRTUAL && owner == COUNTER_NAME && name == "get" && desc == "()I"
      then GetCounter(data, shared)
      else Blocked
    case OtherOp(opcode, _) =>
      if opcode != IFEQ || data.stack == [] || !data.stack[0].Num? then Blocked
      else if data.stack[0].n == 0 then Jump(0, Pop(data), shared)
      else Next(Pop(data), shared)
    case ZeroOperand(opcode) =>
      if opcode == ICONST_1 then Next(Push(data, Num(1)), shared)
      else if opcode == POP && data.stack != [] then Next(Pop(data), shared)
      else if opcode == RETURN then Result([], shared)
      else if opcode == IRETURN && data.stack != [] then Result([data.stack[0]], shared)
      else Blocked
    case TypeOp(_, _) => Blocked
  }

  function FieldExec(opcode: nat, cell: Option<int>, data: Data, shared: Shared): Outcome {
    if cell.None? || cell.value !in shared.heap then Blocked
    else if opcode == GETSTATIC then Next(Push(data, shared.heap[cell.value]), shared)
    else if opcode == PUTSTATIC && data.stack != [] then Next(Pop(data), SetCell(shared, cell.value, data.stack[0]))
    else Blocked
  }

  function StaticCall(m: MethodId, data: Data, shared: Shared): Outcome {
    var native := NativeCell(m);
    if native.None? then Invoke(m, Data([], []), data, shared)
    else
      var called := Increment(shared, native.value);
      if called.None? then Blocked else Next(data, called.value)
  }

  function IncrementAndGet(data: Data, shared: Shared): Outcome {
    if data.stack == [] || !data.stack[0].Ref? then Blocked
    else
      var counted := Increment(shared, data.stack[0].address);
      if counted.None? then Blocked
      else Next(Push(Pop(data), counted.value.heap[data.stack[0].address]), counted.value)
  }

  function GetCounter(data: Data, shared: Shared): Outcome {
    if data.stack == [] || !data.stack[0].Ref? || data.stack[0].address !in shared.heap then Blocked
    else Next(Push(Pop(data), shared.heap[data.stack[0].address]), shared)
  }

  /** A machine that executes those instructions. No exception is thrown or caught in the handler. */
  function HandlerSemantics(): Semantics {
    Semantics((op, _, _, _, data, shared) => Exec(op, data, shared), (_, _, _) => false, (_, shared) => (Null, shared))
  }

  // ---------------------------------------------------------------- single steps

  /** Thread `t` of `s` with other frames and another heap. */
  function At(s: State, t: Tid, frames: seq<Frame>, shared: Shared): State {
    State(s.threads[t := Thread(frames, Running)], shared)
  }

  predicate Stands(prog: Program, f: Frame, op: Op, targets: seq<nat>) {
    AtInsn(prog, f) && InsnAt(prog, f) == Plain(op, targets)
  }

  lemma {:induction false} StepIs(prog: Program, s: State, t: Tid, f: Frame, rest: seq<Frame>, shared: Shared,
      op: Op, targets: seq<nat>)
    requires Stands(prog, f, op, targets)
    ensures Step(HandlerSemantics(), prog, t, 0, At(s, t, [f] + rest, shared)) ==
            PlainStep(prog, t, targets, Exec(op, f.data, shared), At(s, t, [f] + rest, shared))
  {}

  lemma {:induction false} TopSet(s: State, t: Tid, frames: seq<Frame>, shared: Shared, frames': seq<Frame>)
    ensures At(s, t, frames, shared).threads[t := Thread(frames', Running)] == s.threads[t := Thread(frames', Running)]
  {}

  lemma {:induction false} NextStep(prog: Program, s: State, t: Tid, f: Frame, rest: seq<Frame>, shared: Shared,
      op: Op, targets: seq<nat>, data: Data, shared': Shared)
    requires Stands(prog, f, op, targets) && Exec(op, f.data, shared) == Next(data, shared')
    ensures Step(HandlerSemantics(), prog, t, 0, At(s, t, [f] + rest, shared)) ==
            Some(At(s, t, [Frame(f.mid, f.pc + 1, data)] + rest, shared'))
  {
    hide Exec, Step;
    StepIs(prog, s, t, f, rest, shared, op, targets);
    assert ([f] + rest)[1..] == rest;
    TopSet(s, t, [f] + rest, shared, [Frame(f.mid, f.pc + 1, data)] + rest);
  }

  lemma {:induction false} JumpStep(prog: Program, s: State, t: Tid, f: Frame, rest: seq<Frame>, shared: Shared,
      op: Op, target: nat, data: Data)
    requires Stands(prog, f, op, [target]) && Exec(op, f.data, shared) == Jump(0, data, shared)
    ensures Step(HandlerSemantics(), prog, t, 0, At(s, t, [f] + rest, shared)) ==
            Some(At(s, t, [Frame(f.mid, target, data)] + rest, shared))
  {
    hide Exec, Step;
    StepIs(prog, s, t, f, rest, shared, op, [target]);
    assert ([f] + rest)[1..] == rest;
    TopSet(s, t, [f] + rest, shared, [Frame(f.mid, target, data)] + rest);
  }

  lemma {:induction false} InvokeStep(prog: Program, s: State, t: Tid, f: Frame, rest: seq<Frame>, shared: Shared,
      op: Op, m: MethodId)
    requires Stands(prog, f, op, []) && m in prog && Exec(op, f.data, shared) == Invoke(m, Data([], []), f.data, shared)
    ensures Step(HandlerSemantics(), prog, t, 0, At(s, t, [f] + rest, shared)) ==
            Some(At(s, t, [Frame(m, 0, Data([], []))] + ([f] + rest), shared))
  {
    hide Exec, Step;
    StepIs(prog, s, t, f, rest, shared, op, []);
    var frames := [Frame(m, 0, Data([], []))] + ([f] + rest);
    assert [Frame(m, 0, Data([], [])), f] + ([f] + rest)[1..] == frames;
    TopSet(s, t, [f] + rest, shared, frames);
  }

  lemma {:induction false} ReturnStep(prog: Program, s: State, t: Tid, f: Frame, caller: Frame, rest: seq<Frame>,
      shared: Shared)
    requires Stands(prog, f, ZeroOperand(RETURN), [])
    ensures Step(HandlerSemantics(), prog, t, 0, At(s, t, [f] + ([caller] + rest), shared)) ==
            Some(At(s, t, [Frame(caller.mid, caller.pc + 1, caller.data)] + rest, shared))
  {
    hide Step;
    StepIs(prog, s, t, f, [caller] + rest, shared, ZeroOperand(RETURN), []);
    assert ([f] + ([caller] + rest))[1..] == [caller] + rest && ([caller] + rest)[1..] == rest;
    assert [] + caller.data.stack == caller.data.stack;
    TopSet(s, t, [f] + ([caller] + rest), shared, [Frame(caller.mid, caller.pc + 1, caller.data)] + rest);
  }

  lemma {:induction false} ValueStep(prog: Program, s: State, t: Tid, f: Frame, caller: Frame, rest: seq<Frame>,
      shared: Shared, v: Value)
    requires Stands(prog, f, ZeroOperand(IRETURN), [])
    requires Exec(ZeroOperand(IRETURN), f.data, shared) == Result([v], shared)
    ensures var back := Frame(caller.mid, caller.pc + 1, Data(caller.data.locals, [v] + caller.data.stack));
            Step(HandlerSemantics(), prog, t, 0, At(s, t, [f] + ([caller] + rest), shared)) ==
            Some(At(s, t, [back] + rest, shared))
  {
    hide Exec, Step;
    StepIs(prog, s, t, f, [caller] + rest, shared, ZeroOperand(IRETURN), []);
    assert ([f] + ([caller] + rest))[1..] == [caller] + rest && ([caller] + rest)[1..] == rest;
    TopSet(s, t, [f] + ([caller] + rest), shared,
        [Frame(caller.mid, caller.pc + 1, Data(caller.data.locals, [v] + caller.data.stack))] + rest);
  }

  /** `n` steps of thread `t`. */
  function Steps(t: Tid, n: nat): seq<(Tid, int)> {
    if n == 0 then [] else [(t, 0)] + Steps(t, n - 1)
  }

  lemma {:induction false} RunStep(prog: Program, t: Tid, n: nat, s: State, s1: State)
    requires Step(HandlerSemantics(), prog, t, 0, s) == Some(s1)
    ensures Run(HandlerSemantics(), prog, Steps(t, n + 1), s) == Run(HandlerSemantics(), prog, Steps(t, n), s1)
  {
    assert Steps(t, n + 1)[1..] == Steps(t, n);
  }

  // ---------------------------------------------------------------- the code of the handler

  function ForwardInsns(name: string): seq<Insn> {
    [Plain(FieldOp(GETSTATIC, OBJECT, FLAG, "Z"), []), Plain(OtherOp(IFEQ, []), [3]),
     Plain(CallOp(INVOKESTATIC, EVENTS_NAME, name, VOID_DESC, false), []), Plain(ZeroOperand(RETURN), [])]
  }

  function CountInsns(counter: string, native: string): seq<Insn> {
    [Plain(FieldOp(GETSTATIC, EVENTS_NAME, counter, COUNTER_DESC), []),
     Plain(CallOp(INVOKEVIRTUAL, COUNTER_NAME, "incrementAndGet", "()I", false), []), Plain(ZeroOperand(POP), []),
     Plain(CallOp(INVOKESTATIC, EVENTS_NAME, native, VOID_DESC, false), []), Plain(ZeroOperand(RETURN), [])]
  }

  function EnableInsns(): seq<Insn> {
    [Plain(ZeroOperand(ICONST_1), []), Plain(FieldOp(PUTSTATIC, OBJECT, FLAG, "Z"), []), Plain(ZeroOperand(RETURN), [])]
  }

  lemma {:induction false} InsnsResolved(all: seq<Event>, opcode: nat, owner: string, name: string, desc: string,
      labels: seq<Label>)
    ensures ResolveInsn(OBJECT, all, VisitFieldInsn(opcode, owner, name, desc)) ==
            Plain(FieldOp(opcode, owner, name, desc), [])
    ensures ResolveInsn(OBJECT, all, VisitOther(opcode, [], labels)) ==
            Plain(OtherOp(opcode, []), LabelPositions(all, labels))
    ensures ResolveInsn(OBJECT, all, VisitInsn(RETURN)) == Plain(ZeroOperand(RETURN), [])
    ensures ResolveInsn(OBJECT, all, VisitInsn(POP)) == Plain(ZeroOperand(POP), [])
    ensures ResolveInsn(OBJECT, all, VisitInsn(ICONST_1)) == Plain(ZeroOperand(ICONST_1), [])
    ensures ResolveInsn(OBJECT, all, VisitInsn(IRETURN)) == Plain(ZeroOperand(IRETURN), [])
    ensures owner != OBJECT ==>
              ResolveInsn(OBJECT, all, VisitMethodInsn(opcode, owner, name, desc, false)) ==
              Plain(CallOp(opcode, owner, name, desc, false), [])
  {}

  lemma {:induction false} ForwardCode(name: string)
    ensures Resolve(OBJECT, ForwardMethod(name).body).insns == ForwardInsns(name)
  {
    hide ResolveInsns, LabelPos, ResolveInsn;
    var b := ForwardMethod(name).body;
    ForwardResolved(OBJECT, b);
    NamesDiffer();
    InsnsResolved(b, GETSTATIC, OBJECT, FLAG, "Z", []);
    InsnsResolved(b, IFEQ, OBJECT, "", "", [0]);
    InsnsResolved(b, INVOKESTATIC, EVENTS_NAME, name, VOID_DESC, []);
    assert LabelPositions(b, [0]) == [3];
  }

  /** Five instructions and the limits. */
  lemma {:induction false} FiveResolved(b: seq<Event>)
    requires |b| == 6 && (forall i :: 0 <= i < 5 ==> b[i].IsInsn()) && b[5].VisitMaxs?
    ensures ResolveInsns(OBJECT, b, b) == [ResolveInsn(OBJECT, b, b[0]), ResolveInsn(OBJECT, b, b[1]),
        ResolveInsn(OBJECT, b, b[2]), ResolveInsn(OBJECT, b, b[3]), ResolveInsn(OBJECT, b, b[4])]
  {
    hide ResolveInsns, ResolveTable, LabelPos, ResolveInsn;
    ResolveNothing(OBJECT, b);
    assert b[6..] == [] && b[0..] == b;
    ResolveFrom(OBJECT, b, 5, 0);
    ResolveFrom(OBJECT, b, 4, 0);
    ResolveFrom(OBJECT, b, 3, 0);
    ResolveFrom(OBJECT, b, 2, 0);
    ResolveFrom(OBJECT, b, 1, 0);
    ResolveFrom(OBJECT, b, 0, 0);
  }

  lemma {:induction false} CountCode(counter: string, native: string)
    ensures Resolve(OBJECT, CountAndForward(counter, native)).insns == CountInsns(counter, native)
  {
    hide ResolveInsns, ResolveInsn;
    var b := CountAndForward(counter, native);
    NamesDiffer();
    assert |COUNTER_NAME| == 41;
    FiveResolved(b);
    InsnsResolved(b, GETSTATIC, EVENTS_NAME, counter, COUNTER_DESC, []);
    InsnsResolved(b, INVOKEVIRTUAL, COUNTER_NAME, "incrementAndGet", "()I", []);
    InsnsResolved(b, INVOKESTATIC, EVENTS_NAME, native, VOID_DESC, []);
  }

  function ReadInsns(counter: string): seq<Insn> {
    [Plain(FieldOp(GETSTATIC, EVENTS_NAME, counter, COUNTER_DESC), []),
     Plain(CallOp(INVOKEVIRTUAL, COUNTER_NAME, "get", "()I", false), []), Plain(ZeroOperand(IRETURN), [])]
  }

  lemma {:induction false} ReadCode(counter: string)
    ensures Resolve(OBJECT, ReadCounter(counter)).insns == ReadInsns(counter)
  {
    hide ResolveInsns, ResolveInsn;
    var b := ReadCounter(counter);
    NamesDiffer();
    assert |COUNTER_NAME| == 41;
    ResolveNothing(OBJECT, b);
    assert b[4..] == [] && b[0..] == b;
    ResolveFrom(OBJECT, b, 3, 0);
    ResolveFrom(OBJECT, b, 2, 0);
    ResolveFrom(OBJECT, b, 1, 0);
    ResolveFrom(OBJECT, b, 0, 0);
    InsnsResolved(b, GETSTATIC, EVENTS_NAME, counter, COUNTER_DESC, []);
    InsnsResolved(b, INVOKEVIRTUAL, COUNTER_NAME, "get", "()I", []);
  }

  // ---------------------------------------------------------------- running the handler

  /** The method that the inserted call of a kind names. */
  function CalledMethod(k: Kind): MethodId {
    var call := HandlerCall("java/lang/Object", k);
    MethodId(call.owner, call.name, call.desc)
  }

  /** The method that reports the counter of a kind. */
  function ReadMethod(k: Kind): MethodId {
    MethodId(EVENTS_NAME, if k.Enter? then "numMonitorEnterEvents" else "numMonitorExitEvents", "()I")
  }

  /** The method of ApplicationEvents for a kind. */
  function CountMethod(k: Kind): MethodId {
    MethodId(EVENTS_NAME, if k.Enter? then ENTER_NAME else EXIT_NAME, VOID_DESC)
  }

  function CounterField(k: Kind): string { if k.Enter? then ENTER_COUNTER else EXIT_COUNTER }

  function NativeName(k: Kind): string { if k.Enter? then NATIVE_ENTER else NATIVE_EXIT }

  /** The method that `pj_vm_start` calls. */
  const ENABLE_METHOD := MethodId(OBJECT, ENABLE_NAME, VOID_DESC)

  /** The methods of the handler are in the program, those that the inserted calls name among them. */
  predicate HasHandler(prog: Program) {
    && ENABLE_METHOD in prog && prog[ENABLE_METHOD].insns == EnableInsns()
    && forall k: Kind ::
      && CalledMethod(k) in prog && prog[CalledMethod(k)].insns == ForwardInsns(CountMethod(k).name)
      && CountMethod(k) in prog && prog[CountMethod(k)].insns == CountInsns(CounterField(k), NativeName(k))
      && ReadMethod(k) in prog && prog[ReadMethod(k)].insns == ReadInsns(CounterField(k))
  }

  /** The heap holds the fields of the agent: the flag, and the two counters in objects at `enter` and `exit`. */
  predicate Represents(a: Agent, heap: map<int, Value>, enter: nat, exit: nat) {
    && enter > EXIT_CALLS && exit > EXIT_CALLS && enter != exit
    && heap.Keys >= {FLAG_CELL, ENTER_CELL, EXIT_CELL, ENTER_CALLS, EXIT_CALLS, enter, exit}
    && heap[FLAG_CELL] == Num(if a.flag then 1 else 0) && heap[ENTER_CELL] == Ref(enter) && heap[EXIT_CELL] == Ref(exit)
    && heap[enter] == Num(a.enterCounter) && heap[exit] == Num(a.exitCounter)
    && heap[ENTER_CALLS].Num? && heap[EXIT_CALLS].Num?
  }

  /** The counter of kind `k`, which is at `counter`, goes up by one, and so does the number of native calls. */
  function Counted(shared: Shared, k: Kind, counter: nat): Shared
    requires {ENTER_CALLS, EXIT_CALLS, counter as int} <= shared.heap.Keys
    requires shared.heap[counter].Num? && shared.heap[ENTER_CALLS].Num? && shared.heap[EXIT_CALLS].Num?
  {
    var calls := if k.Enter? then ENTER_CALLS else EXIT_CALLS;
    SetCell(SetCell(shared, counter, Num(NextInt(shared.heap[counter].n))), calls,
        Num(NextInt(shared.heap[calls].n)))
  }

  lemma {:induction false} CellsOf(k: Kind)
    ensures StaticCell(EVENTS_NAME, CounterField(k)) == Some(if k.Enter? then ENTER_CELL else EXIT_CELL)
    ensures NativeCell(MethodId(EVENTS_NAME, NativeName(k), VOID_DESC))
        == Some(if k.Enter? then ENTER_CALLS else EXIT_CALLS)
    ensures StaticCell(OBJECT, FLAG) == Some(FLAG_CELL) && NativeCell(CountMethod(k)) == None
  {
    NamesDiffer();
    assert |ENTER_COUNTER| == 19 && |EXIT_COUNTER| == 18 && |NATIVE_ENTER| == 12 && |NATIVE_EXIT| == 11;
    assert |ENTER_NAME| == 29 && |EXIT_NAME| == 28;
  }

  /** What the five instructions of ApplicationEvents do one by one. */
  lemma {:induction false} CountExec(k: Kind, shared: Shared, a: Agent, enter: nat, exit: nat)
    requires Represents(a, shared.heap, enter, exit)
    ensures var counter := if k.Enter? then enter else exit;
            var none, one := Data([], []), Data([], [Ref(counter)]);
            var shared1 := SetCell(shared, counter, Num(NextInt(shared.heap[counter].n)));
            var two := Data([], [shared1.heap[counter]]);
            && Exec(FieldOp(GETSTATIC, EVENTS_NAME, CounterField(k), COUNTER_DESC), none, shared) == Next(one, shared)
            && Exec(CallOp(INVOKEVIRTUAL, COUNTER_NAME, "incrementAndGet", "()I", false), one, shared)
                == Next(two, shared1)
            && Exec(ZeroOperand(POP), two, shared1) == Next(none, shared1)
            && Exec(CallOp(INVOKESTATIC, EVENTS_NAME, NativeName(k), VOID_DESC, false), none, shared1)
                == Next(none, Counted(shared, k, counter))
  {
    hide StaticCell, NativeCell;
    CellsOf(k);
    var counter := if k.Enter? then enter else exit;
    var shared1 := SetCell(shared, counter, Num(NextInt(shared.heap[counter].n)));
    assert Pop(Data([], [Ref(counter)])) == Data([], []) && Pop(Data([], [shared1.heap[counter]])) == Data([], []);
  }

  lemma {:induction false} CountStands(prog: Program, k: Kind, pc: nat, data: Data)
    requires HasHandler(prog) && pc < 5
    ensures var i := CountInsns(CounterField(k), NativeName(k))[pc];
            Stands(prog, Frame(CountMethod(k), pc, data), i.op, i.targets)
  {
    assert prog[CountMethod(k)].insns == CountInsns(CounterField(k), NativeName(k));
  }

  /** The method of ApplicationEvents: five instructions. */
  lemma {:induction false} CountRuns(prog: Program, s: State, t: Tid, k: Kind, caller: Frame, rest: seq<Frame>,
      shared: Shared, a: Agent, enter: nat, exit: nat)
    requires HasHandler(prog) && Represents(a, shared.heap, enter, exit)
    ensures var s' := At(s, t, [Frame(CountMethod(k), 0, Data([], []))] + ([caller] + rest), shared);
            Run(HandlerSemantics(), prog, Steps(t, 5), s') ==
            Some(At(s, t, [Frame(caller.mid, caller.pc + 1, caller.data)] + rest,
                Counted(shared, k, if k.Enter? then enter else exit)))
  {
    hide Step, Run, CountMethod, Exec, HasHandler, Stands, CounterField, NativeName;
    CountExec(k, shared, a, enter, exit);
    var m := CountMethod(k);
    var counter := if k.Enter? then enter else exit;
    var below := [caller] + rest;
    var none, one := Data([], []), Data([], [Ref(counter)]);
    var shared1 := SetCell(shared, counter, Num(NextInt(shared.heap[counter].n)));
    var shared2 := Counted(shared, k, counter);
    var two := Data([], [shared1.heap[counter]]);
    CountStands(prog, k, 0, none);
    CountStands(prog, k, 1, one);
    CountStands(prog, k, 2, two);
    CountStands(prog, k, 3, none);
    CountStands(prog, k, 4, none);
    var f0, f1, f2, f3, f4 := Frame(m, 0, none), Frame(m, 1, one), Frame(m, 2, two), Frame(m, 3, none),
        Frame(m, 4, none);
    NextStep(prog, s, t, f0, below, shared, FieldOp(GETSTATIC, EVENTS_NAME, CounterField(k), COUNTER_DESC), [], one,
        shared);
    NextStep(prog, s, t, f1, below, shared, CallOp(INVOKEVIRTUAL, COUNTER_NAME, "incrementAndGet", "()I", false), [],
        two, shared1);
    NextStep(prog, s, t, f2, below, shared1, ZeroOperand(POP), [], none, shared1);
    NextStep(prog, s, t, f3, below, shared1, CallOp(INVOKESTATIC, EVENTS_NAME, NativeName(k), VOID_DESC, false), [],
        none, shared2);
    ReturnStep(prog, s, t, f4, caller, rest, shared2);
    RunStep(prog, t, 4, At(s, t, [f0] + below, shared), At(s, t, [f1] + below, shared));
    RunStep(prog, t, 3, At(s, t, [f1] + below, shared), At(s, t, [f2] + below, shared1));
    RunStep(prog, t, 2, At(s, t, [f2] + below, shared1), At(s, t, [f3] + below, shared1));
    RunStep(prog, t, 1, At(s, t, [f3] + below, shared1), At(s, t, [f4] + below, shared2));
    var last := At(s, t, [Frame(caller.mid, caller.pc + 1, caller.data)] + rest, shared2);
    RunStep(prog, t, 0, At(s, t, [f4] + below, shared2), last);
    RunNothing(prog, t, last);
  }

  lemma {:induction false} RunNothing(prog: Program, t: Tid, s: State)
    ensures Run(HandlerSemantics(), prog, Steps(t, 0), s) == Some(s)
  {}

  lemma {:induction false} ForwardStands(prog: Program, k: Kind, pc: nat, data: Data)
    requires HasHandler(prog) && pc < 4
    ensures var i := ForwardInsns(CountMethod(k).name)[pc];
            Stands(prog, Frame(CalledMethod(k), pc, data), i.op, i.targets)
  {
    assert prog[CalledMethod(k)].insns == ForwardInsns(CountMethod(k).name);
  }

  lemma {:induction false} ForwardExec(k: Kind, shared: Shared, a: Agent, enter: nat, exit: nat)
    requires Represents(a, shared.heap, enter, exit)
    ensures var none, read := Data([], []), Data([], [Num(if a.flag then 1 else 0)]);
            && Exec(FieldOp(GETSTATIC, OBJECT, FLAG, "Z"), none, shared) == Next(read, shared)
            && Exec(OtherOp(IFEQ, []), read, shared) == (if a.flag then Next(none, shared) else Jump(0, none, shared))
            && Exec(CallOp(INVOKESTATIC, EVENTS_NAME, CountMethod(k).name, VOID_DESC, false), none, shared)
                == Invoke(CountMethod(k), none, none, shared)
  {
    hide StaticCell, NativeCell;
    CellsOf(k);
    assert Pop(Data([], [Num(if a.flag then 1 else 0)])) == Data([], []);
  }

  /** The grafted method while the flag is not set: it reads the flag and returns. */
  lemma {:induction false} IdleRuns(prog: Program, s: State, t: Tid, k: Kind, caller: Frame, rest: seq<Frame>,
      shared: Shared, a: Agent, enter: nat, exit: nat)
    requires HasHandler(prog) && Represents(a, shared.heap, enter, exit) && !a.flag
    ensures Run(HandlerSemantics(), prog, Steps(t, 3),
                At(s, t, [Frame(CalledMethod(k), 0, Data([], []))] + ([caller] + rest), shared)) ==
            Some(At(s, t, [Frame(caller.mid, caller.pc + 1, caller.data)] + rest, shared))
  {
    hide Step, Run, Exec, HasHandler, Stands, CalledMethod, Represents, CountMethod;
    var m, below := CalledMethod(k), [caller] + rest;
    var none, read := Data([], []), Data([], [Num(0)]);
    ForwardExec(k, shared, a, enter, exit);
    ForwardStands(prog, k, 0, none);
    ForwardStands(prog, k, 1, read);
    ForwardStands(prog, k, 3, none);
    var f0, f1, f3 := Frame(m, 0, none), Frame(m, 1, read), Frame(m, 3, none);
    var last := At(s, t, [Frame(caller.mid, caller.pc + 1, caller.data)] + rest, shared);
    NextStep(prog, s, t, f0, below, shared, FieldOp(GETSTATIC, OBJECT, FLAG, "Z"), [], read, shared);
    JumpStep(prog, s, t, f1, below, shared, OtherOp(IFEQ, []), 3, none);
    ReturnStep(prog, s, t, f3, caller, rest, shared);
    RunStep(prog, t, 2, At(s, t, [f0] + below, shared), At(s, t, [f1] + below, shared));
    RunStep(prog, t, 1, At(s, t, [f1] + below, shared), At(s, t, [f3] + below, shared));
    RunStep(prog, t, 0, At(s, t, [f3] + below, shared), last);
    RunNothing(prog, t, last);
  }

  lemma {:induction false} StepsTogether(prog: Program, t: Tid, n: nat, k: nat, s: State, s1: State)
    requires Run(HandlerSemantics(), prog, Steps(t, n), s) == Some(s1)
    ensures Run(HandlerSemantics(), prog, Steps(t, n + k), s) == Run(HandlerSemantics(), prog, Steps(t, k), s1)
  {
    hide Step;
    if n == 0 {
    } else {
      assert Steps(t, n)[1..] == Steps(t, n - 1) && Steps(t, n + k)[1..] == Steps(t, n - 1 + k);
      StepsTogether(prog, t, n - 1, k, Step(HandlerSemantics(), prog, t, 0, s).value, s1);
    }
  }

  /** The grafted method while the flag is set: it calls ApplicationEvents and returns. */
  lemma {:induction false} ForwardRuns(prog: Program, s: State, t: Tid, k: Kind, caller: Frame, rest: seq<Frame>,
      shared: Shared, a: Agent, enter: nat, exit: nat)
    requires HasHandler(prog) && Represents(a, shared.heap, enter, exit) && a.flag
    ensures Run(HandlerSemantics(), prog, Steps(t, 9),
                At(s, t, [Frame(CalledMethod(k), 0, Data([], []))] + ([caller] + rest), shared)) ==
            Some(At(s, t, [Frame(caller.mid, caller.pc + 1, caller.data)] + rest,
                Counted(shared, k, if k.Enter? then enter else exit)))
  {
    hide Step, Run, Exec, HasHandler, Stands, CalledMethod, CountMethod;
    var m, c, below := CalledMethod(k), CountMethod(k), [caller] + rest;
    var none, read := Data([], []), Data([], [Num(1)]);
    ForwardExec(k, shared, a, enter, exit);
    ForwardStands(prog, k, 0, none);
    ForwardStands(prog, k, 1, read);
    ForwardStands(prog, k, 2, none);
    ForwardStands(prog, k, 3, none);
    InProgram(prog, k);
    var f0, f1, f2, f3 := Frame(m, 0, none), Frame(m, 1, read), Frame(m, 2, none), Frame(m, 3, none);
    var counted := Counted(shared, k, if k.Enter? then enter else exit);
    var called := At(s, t, [Frame(c, 0, none)] + ([f2] + below), shared);
    var last := At(s, t, [Frame(caller.mid, caller.pc + 1, caller.data)] + rest, counted);
    NextStep(prog, s, t, f0, below, shared, FieldOp(GETSTATIC, OBJECT, FLAG, "Z"), [], read, shared);
    NextStep(prog, s, t, f1, below, shared, OtherOp(IFEQ, []), [3], none, shared);
    InvokeStep(prog, s, t, f2, below, shared, CallOp(INVOKESTATIC, EVENTS_NAME, c.name, VOID_DESC, false), c);
    CountRuns(prog, s, t, k, f2, below, shared, a, enter, exit);
    ReturnStep(prog, s, t, f3, caller, rest, counted);
    RunStep(prog, t, 8, At(s, t, [f0] + below, shared), At(s, t, [f1] + below, shared));
    RunStep(prog, t, 7, At(s, t, [f1] + below, shared), At(s, t, [f2] + below, shared));
    RunStep(prog, t, 6, At(s, t, [f2] + below, shared), called);
    StepsTogether(prog, t, 5, 1, called, At(s, t, [f3] + below, counted));
    RunStep(prog, t, 0, At(s, t, [f3] + below, counted), last);
    RunNothing(prog, t, last);
  }

  lemma {:induction false} InProgram(prog: Program, k: Kind)
    requires HasHandler(prog)
    ensures CountMethod(k) in prog
  {}

  /** What an inserted call does, as code. The state is that of thread `t` just inside the method that the call of kind
      `k` names, called from where `t` is in `s`. With the flag unset, the thread returns behind the call and nothing
      else happens. With the flag set, it does too, and the counter of kind `k` and the number of calls of the native
      method of kind `k` have each gone up by one; the other counter, the other native method and all else are the
      same. */
  lemma {:induction false} HandlerRuns(prog: Program, s: State, t: Tid, k: Kind, a: Agent, enter: nat, exit: nat)
    requires HasHandler(prog) && Alive(s, t) && s.threads[t].mode.Running?
    requires Represents(a, s.shared.heap, enter, exit)
    ensures var inside := At(s, t, [Frame(CalledMethod(k), 0, Data([], []))] + s.threads[t].frames, s.shared);
            var heap := s.shared.heap;
            var counter, calls := if k.Enter? then enter else exit, if k.Enter? then ENTER_CALLS else EXIT_CALLS;
            if !a.flag then Run(HandlerSemantics(), prog, Steps(t, 3), inside) == Some(ReturnFromCall(s, t))
            else
              Run(HandlerSemantics(), prog, Steps(t, 9), inside) ==
              Some(ReturnFromCall(s, t).(shared := s.shared.(heap :=
                  heap[counter := Num(NextInt(heap[counter].n))][calls := Num(NextInt(heap[calls].n))])))
  {
    hide Run, HasHandler, CalledMethod;
    var frames := s.threads[t].frames;
    assert frames == [frames[0]] + frames[1..];
    if a.flag {
      ForwardRuns(prog, s, t, k, frames[0], frames[1..], s.shared, a, enter, exit);
    } else {
      IdleRuns(prog, s, t, k, frames[0], frames[1..], s.shared, a, enter, exit);
    }
  }

  /** The phases of the pipeline say the same: without the flag the handler is left at once; with it, counting changes
      the represented agent as the code changes the heap. */
  lemma {:induction false} PhasesMatchCode(a: Agent, t: Tid, k: Kind, shared: Shared, enter: nat, exit: nat)
    requires Represents(a, shared.heap, enter, exit)
    requires -0x8000_0000 <= a.enterCounter < 0x8000_0000 && -0x8000_0000 <= a.exitCounter < 0x8000_0000
    ensures HandlerAction(a, t, AtFlag(k)) == Some((a, if a.flag then AtCount(k) else AtReturn))
    ensures var counted := HandlerAction(a, t, AtCount(k));
            && counted.Some? && counted.value.1 == (if k.Enter? then AtLock else AtReturn)
            && Represents(counted.value.0, Counted(shared, k, if k.Enter? then enter else exit).heap, enter, exit)
            && counted.value.0.(enterCounter := 0, exitCounter := 0) == a.(enterCounter := 0, exitCounter := 0)
  {}

  /** What `pj_vm_start` calls, as code: it sets the flag, and that is what the phase step does. */
  lemma {:induction false} EnableRuns(prog: Program, s: State, t: Tid, a: Agent, enter: nat, exit: nat)
    requires HasHandler(prog) && Alive(s, t) && s.threads[t].mode.Running?
    requires Represents(a, s.shared.heap, enter, exit) && a.stage == Primordial
    ensures var inside := At(s, t, [Frame(ENABLE_METHOD, 0, Data([], []))] + s.threads[t].frames, s.shared);
            var shared := s.shared.(heap := s.shared.heap[FLAG_CELL := Num(1)]);
            && Run(HandlerSemantics(), prog, Steps(t, 3), inside) == Some(ReturnFromCall(s, t).(shared := shared))
            && StageAction(a).Some? && StageAction(a).value.flag
            && Represents(StageAction(a).value, shared.heap, enter, exit)
  {
    hide Step, Run, Exec, StaticCell;
    var frames, shared := s.threads[t].frames, SetCell(s.shared, FLAG_CELL, Num(1));
    var below, none, one := [frames[0]] + frames[1..], Data([], []), Data([], [Num(1)]);
    assert frames == below;
    EnableExec(s.shared);
    var m := ENABLE_METHOD;
    var f0, f1, f2 := Frame(m, 0, none), Frame(m, 1, one), Frame(m, 2, none);
    NextStep(prog, s, t, f0, below, s.shared, ZeroOperand(ICONST_1), [], one, s.shared);
    NextStep(prog, s, t, f1, below, s.shared, FieldOp(PUTSTATIC, OBJECT, FLAG, "Z"), [], none, shared);
    ReturnStep(prog, s, t, f2, frames[0], frames[1..], shared);
    RunStep(prog, t, 2, At(s, t, [f0] + below, s.shared), At(s, t, [f1] + below, s.shared));
    RunStep(prog, t, 1, At(s, t, [f1] + below, s.shared), At(s, t, [f2] + below, shared));
    RunStep(prog, t, 0, At(s, t, [f2] + below, shared), ReturnFromCall(s, t).(shared := shared));
    RunNothing(prog, t, ReturnFromCall(s, t).(shared := shared));
  }

  lemma {:induction false} EnableExec(shared: Shared)
    requires FLAG_CELL in shared.heap
    ensures Exec(ZeroOperand(ICONST_1), Data([], []), shared) == Next(Data([], [Num(1)]), shared)
    ensures Exec(FieldOp(PUTSTATIC, OBJECT, FLAG, "Z"), Data([], [Num(1)]), shared)
        == Next(Data([], []), SetCell(shared, FLAG_CELL, Num(1)))
  {
    assert [Num(1)] + [] == [Num(1)];
    assert Pop(Data([], [Num(1)])) == Data([], []);
  }

  /** What the two reporting methods return, as code: the counter of their kind, on the caller's stack. */
  lemma {:induction false} ReadRuns(prog: Program, s: State, t: Tid, k: Kind, a: Agent, enter: nat, exit: nat)
    requires HasHandler(prog) && Alive(s, t) && s.threads[t].mode.Running?
    requires Represents(a, s.shared.heap, enter, exit)
    ensures var inside := At(s, t, [Frame(ReadMethod(k), 0, Data([], []))] + s.threads[t].frames, s.shared);
            var caller := s.threads[t].frames[0];
            var data := Data(caller.data.locals,
                [Num(if k.Enter? then a.enterCounter else a.exitCounter)] + caller.data.stack);
            Run(HandlerSemantics(), prog, Steps(t, 3), inside) ==
            Some(At(s, t, [Frame(caller.mid, caller.pc + 1, data)] + s.threads[t].frames[1..], s.shared))
  {
    hide Step, Run, Exec, StaticCell;
    var frames := s.threads[t].frames;
    var below := [frames[0]] + frames[1..];
    assert frames == below;
    var counter := if k.Enter? then enter else exit;
    var value := s.shared.heap[counter];
    var none, one, two := Data([], []), Data([], [Ref(counter)]), Data([], [value]);
    ReadExec(k, s.shared, a, enter, exit);
    ReadStands(prog, k, 0, none);
    ReadStands(prog, k, 1, one);
    ReadStands(prog, k, 2, two);
    var m := ReadMethod(k);
    var f0, f1, f2 := Frame(m, 0, none), Frame(m, 1, one), Frame(m, 2, two);
    var back := Frame(frames[0].mid, frames[0].pc + 1, Data(frames[0].data.locals, [value] + frames[0].data.stack));
    NextStep(prog, s, t, f0, below, s.shared, FieldOp(GETSTATIC, EVENTS_NAME, CounterField(k), COUNTER_DESC), [], one,
        s.shared);
    NextStep(prog, s, t, f1, below, s.shared, CallOp(INVOKEVIRTUAL, COUNTER_NAME, "get", "()I", false), [], two,
        s.shared);
    ValueStep(prog, s, t, f2, frames[0], frames[1..], s.shared, value);
    RunStep(prog, t, 2, At(s, t, [f0] + below, s.shared), At(s, t, [f1] + below, s.shared));
    RunStep(prog, t, 1, At(s, t, [f1] + below, s.shared), At(s, t, [f2] + below, s.shared));
    RunStep(prog, t, 0, At(s, t, [f2] + below, s.shared), At(s, t, [back] + frames[1..], s.shared));
    RunNothing(prog, t, At(s, t, [back] + frames[1..], s.shared));
  }

  lemma {:induction false} ReadExec(k: Kind, shared: Shared, a: Agent, enter: nat, exit: nat)
    requires Represents(a, shared.heap, enter, exit)
    ensures var counter := if k.Enter? then enter else exit;
            var none, one, two := Data([], []), Data([], [Ref(counter)]), Data([], [shared.heap[counter]]);
            && Exec(FieldOp(GETSTATIC, EVENTS_NAME, CounterField(k), COUNTER_DESC), none, shared) == Next(one, shared)
            && Exec(CallOp(INVOKEVIRTUAL, COUNTER_NAME, "get", "()I", false), one, shared) == Next(two, shared)
            && Exec(ZeroOperand(IRETURN), two, shared) == Result([shared.heap[counter]], shared)
  {
    hide StaticCell;
    CellsOf(k);
    assert |"get"| == 3 && |"incrementAndGet"| == 15;
    var counter := if k.Enter? then enter else exit;
    assert Pop(Data([], [Ref(counter)])) == Data([], []);
  }

  lemma {:induction false} ReadStands(prog: Program, k: Kind, pc: nat, data: Data)
    requires HasHandler(prog) && pc < 3
    ensures var i := ReadInsns(CounterField(k))[pc]; Stands(prog, Frame(ReadMethod(k), pc, data), i.op, i.targets)
  {
    assert prog[ReadMethod(k)].insns == ReadInsns(CounterField(k));
  }

  // ---------------------------------------------------------------- the loaded classes have the handler

  /** A method of the loaded `java/lang/Object`, by its place behind the class's own methods. */
  lemma {:induction false} GraftFound(rejected: set<string>, cs: seq<ClassFile>, i: nat, g: nat)
    requires i < |cs| && cs[i].name == "java/lang/Object" && cs[i].name !in rejected && g < 3
    requires forall k :: 0 <= k < i ==> cs[k].name != cs[i].name
    requires forall m :: m in cs[i].methods ==> !("phasicj$agent$rt$" <= m.name)
    ensures var m := [EnableMethod(), ForwardMethod(ENTER_NAME), ForwardMethod(EXIT_NAME)][g];
            var ms := MethodsOf(Loaded("java/lang/Object", [ObjectAmendment()], rejected, cs));
            MethodId(OBJECT, m.name, VOID_DESC) in ms && ms[MethodId(OBJECT, m.name, VOID_DESC)] == m.body
  {
    hide Loaded, InstrumentMethods, MethodsOf;
    var l := Loaded("java/lang/Object", [ObjectAmendment()], rejected, cs);
    var own := InstrumentMethods("java/lang/Object", cs[i].methods);
    var grafted := [EnableMethod(), ForwardMethod(ENTER_NAME), ForwardMethod(EXIT_NAME)];
    LoadedObject(rejected, cs, i);
    forall k | 0 <= k < i ensures l[k].name != l[i].name {
      LoadedIsInstrumented(OBJECT, [ObjectAmendment()], rejected, cs, k);
    }
    var j := |own| + g;
    assert l[i].methods == own + grafted && l[i].methods[j] == grafted[g];
    forall k | 0 <= k < j ensures l[i].methods[k].name != grafted[g].name {
      if k < |own| {
        OwnNameDiffers(cs[i].methods, k, own[k].name);
      } else {
        Reentry.HandlerNamesDiffer();
        assert l[i].methods[k] == grafted[k - |own|];
      }
    }
    MethodFound(l, i, j);
  }

  lemma {:induction false} OwnNameDiffers(ms: seq<Method>, k: nat, name: string)
    requires k < |ms| && name == ms[k].name && forall m :: m in ms ==> !("phasicj$agent$rt$" <= m.name)
    ensures name != ENABLE_NAME && name != ENTER_NAME && name != EXIT_NAME
  {
    GraftedNames();
    assert ms[k] in ms;
  }

  lemma {:induction false} EventsFound(rejected: set<string>, cs: seq<ClassFile>, j: nat, k: Kind)
    requires j < |cs| && cs[j] == APPLICATION_EVENTS && forall n :: 0 <= n < j ==> cs[n].name != EVENTS_NAME
    ensures var ms := MethodsOf(Loaded("java/lang/Object", [ObjectAmendment()], rejected, cs));
            && CountMethod(k) in ms && ms[CountMethod(k)] == CountAndForward(CounterField(k), NativeName(k))
            && ReadMethod(k) in ms && ms[ReadMethod(k)] == ReadCounter(CounterField(k))
  {
    hide Loaded, MethodsOf;
    var l := Loaded("java/lang/Object", [ObjectAmendment()], rejected, cs);
    EventsUntouched();
    forall n | 0 <= n <= j ensures l[n].name == cs[n].name && l[j] == cs[j] {
      LoadedIsInstrumented(OBJECT, [ObjectAmendment()], rejected, cs, n);
      LoadedIsInstrumented(OBJECT, [ObjectAmendment()], rejected, cs, j);
    }
    Reentry.HandlerNamesDiffer();
    assert |NATIVE_ENTER| == 12 && |NATIVE_EXIT| == 11 && |ENTER_NAME| == 29 && |EXIT_NAME| == 28;
    assert |"numMonitorEnterEvents"| == 21 && |"numMonitorExitEvents"| == 20 && |INIT| == 6;
    MethodFound(l, j, if k.Enter? then 3 else 4);
    MethodFound(l, j, if k.Enter? then 5 else 6);
  }

  lemma {:induction false} EventsUntouched()
    ensures "phasicj/agent/rt/" <= EVENTS_NAME
  {}

  /** The classes of a program in which `java/lang/Object` declares no method with the agent's prefix by itself, and
      which has ApplicationEvents, have the handler once they are loaded. */
  lemma {:induction false} LoadedHasHandler(rejected: set<string>, cs: seq<ClassFile>, i: nat, j: nat)
    requires i < |cs| && cs[i].name == "java/lang/Object" && cs[i].name !in rejected
    requires forall k :: 0 <= k < i ==> cs[k].name != cs[i].name
    requires forall m :: m in cs[i].methods ==> !("phasicj$agent$rt$" <= m.name)
    requires j < |cs| && cs[j] == APPLICATION_EVENTS && forall n :: 0 <= n < j ==> cs[n].name != EVENTS_NAME
    ensures HasHandler(ProgramOf("java/lang/Object", Loaded("java/lang/Object", [ObjectAmendment()], rejected, cs)))
  {
    hide Loaded, MethodsOf, Resolve, ForwardMethod, EnableMethod, CountAndForward, CountInsns, ForwardInsns,
        ReadCounter, ReadInsns;
    GraftFound(rejected, cs, i, 0);
    GraftNames();
    EnableCode();
    forall k: Kind
      ensures var p := ProgramOf(OBJECT, Loaded("java/lang/Object", [ObjectAmendment()], rejected, cs));
              && CalledMethod(k) in p && p[CalledMethod(k)].insns == ForwardInsns(CountMethod(k).name)
              && CountMethod(k) in p && p[CountMethod(k)].insns == CountInsns(CounterField(k), NativeName(k))
              && ReadMethod(k) in p && p[ReadMethod(k)].insns == ReadInsns(CounterField(k))
    {
      GraftFound(rejected, cs, i, if k.Enter? then 1 else 2);
      EventsFound(rejected, cs, j, k);
      ForwardCode(CountMethod(k).name);
      CountCode(CounterField(k), NativeName(k));
      ReadCode(CounterField(k));
    }
  }

  lemma {:induction false} GraftNames()
    ensures EnableMethod().name == ENABLE_NAME
    ensures ForwardMethod(ENTER_NAME).name == ENTER_NAME && ForwardMethod(EXIT_NAME).name == EXIT_NAME
  {}

  lemma {:induction false} EnableCode()
    ensures Resolve(OBJECT, EnableMethod().body).insns == EnableInsns()
  {
    hide ResolveInsns, ResolveInsn;
    var b := EnableMethod().body;
    ResolveNothing(OBJECT, b);
    assert b[4..] == [] && b[0..] == b;
    ResolveFrom(OBJECT, b, 3, 0);
    ResolveFrom(OBJECT, b, 2, 0);
    ResolveFrom(OBJECT, b, 1, 0);
    ResolveFrom(OBJECT, b, 0, 0);
    InsnsResolved(b, PUTSTATIC, OBJECT, FLAG, "Z", []);
  }

  /** The program with nothing assumed has the handler. */
  lemma {:induction false} LeastProgramHasHandler()
    ensures HasHandler(ProgramOf("java/lang/Object",
        Loaded("java/lang/Object", [ObjectAmendment()], {}, Reentry.LEAST_PROGRAM)))
  {
    hide HasHandler, ProgramOf, Loaded;
    NamesDiffer();
    ConstructorNotPrefixed();
    LoadedHasHandler({}, Reentry.LEAST_PROGRAM, 0, 1);
  }
}

/**
  The handler's own code keeps within the limits it declares: an instance of `StackTyping` with typing rules that are
  right about the machine of `HandlerRuns`.
 */
module HandlerLimits {
  import opened Wrappers
  import opened Bytecode
  import opened JavaVm
  import opened HandlerClasses
  import opened GraftedHandler
  import opened HandlerRuns
  import opened StackTyping
  import AgentProgram

  const NONE := Shape([], [])
  const ONE := Shape([], ["value"])

  function Pushed(s: Shape): Shape {
    Shape(s.locals, ["value"] + s.stack)
  }

  function Popped(s: Shape): Option<Shape> {
    if s.stack == [] then None else Some(Shape(s.locals, s.stack[1..]))
  }

  /** What the instructions of the handler do to the depth of the stack; the methods it calls take no arguments. */
  function Effect(op: Op, s: Shape): Option<Shape> {
    match op
    case FieldOp(opcode, _, _, _) =>
      if opcode == GETSTATIC then Some(Pushed(s)) else if opcode == PUTSTATIC then Popped(s) else None
    case CallOp(opcode, _, _, _, _) =>
      if opcode == INVOKESTATIC then Some(s)
      else if opcode == INVOKEVIRTUAL && s.stack != [] then Some(s)
      else None
    case OtherOp(opcode, _) => if opcode == IFEQ then Popped(s) else None
    case ZeroOperand(opcode) =>
      if opcode == ICONST_1 then Some(Pushed(s))
      else if opcode == POP then Popped(s)
      else if opcode == RETURN then Some(s)
      else if opcode == IRETURN && s.stack != [] then Some(s)
      else None
    case TypeOp(_, _) => None
  }

  function HandlerRules(): Rules {
    Rules(
      Effect,
      op => op != ZeroOperand(RETURN) && op != ZeroOperand(IRETURN),
      (a: Shape, b: Shape) => |a.stack| == |b.stack|,
      _ => true,
      (_, _) => true)
  }

  lemma {:induction false} EffectFits(op: Op, data: Data, shared: Shared, s: Shape)
    requires |data.stack| == |s.stack| && Effect(op, s).Some?
    ensures OutcomeFits(HandlerRules(), op, Effect(op, s).value, Exec(op, data, shared))
  {
    hide StaticCell, NativeCell;
  }

  /** These rules say of every instruction how deep the machine leaves the stack. */
  lemma {:induction false} RulesAreSound()
    ensures Sound(HandlerRules(), HandlerSemantics())
  {
    hide OutcomeFits, Effect, Exec;
    var r, sem := HandlerRules(), HandlerSemantics();
    forall op: Op, input: int, t: Tid, m: MethodId, data: Data, shared: Shared, shape: Shape
      | |data.stack| == |shape.stack| && r.effect(op, shape).Some?
      ensures OutcomeFits(r, op, r.effect(op, shape).value, sem.exec(op, input, t, m, data, shared))
    {
      EffectFits(op, data, shared, shape);
    }
  }

  /** Straight code: each instruction flows to the next. */
  lemma {:induction false} StraightTyped(c: Code, typing: seq<Shape>)
    requires |typing| == |c.insns| && c.table == []
    requires forall q :: 0 <= q < |typing| ==> |typing[q].stack| <= 1 && InsnTyped(HandlerRules(), c, typing, q)
    ensures Typed(HandlerRules(), c, typing, 1)
  {}

  /** The methods of ApplicationEvents that count are typed within one slot, which is what they declare. */
  lemma {:induction false} CountTyped(counter: string, native: string)
    ensures var c := Resolve(OBJECT, CountAndForward(counter, native));
            Typed(HandlerRules(), c, [NONE, ONE, ONE, NONE, NONE], 1)
  {
    hide Resolve;
    var c, typing := Resolve(OBJECT, CountAndForward(counter, native)), [NONE, ONE, ONE, NONE, NONE];
    CountCode(counter, native);
    NoTable(CountAndForward(counter, native));
    forall q | 0 <= q < 5 ensures |typing[q].stack| <= 1 && InsnTyped(HandlerRules(), c, typing, q) {
      assert c.insns[q] == CountInsns(counter, native)[q];
    }
    StraightTyped(c, typing);
  }

  lemma {:induction false} NoTable(b: seq<Event>)
    requires AgentProgram.Straight(b)
    ensures Resolve(OBJECT, b).table == []
  {
    AgentProgram.StraightInsns(OBJECT, b, b);
  }

  /** So are the grafted handler methods, with their branch. */
  lemma {:induction false} ForwardTyped(name: string)
    ensures Typed(HandlerRules(), Resolve(OBJECT, ForwardMethod(name).body), [NONE, ONE, NONE, NONE], 1)
  {
    hide ResolveInsns, ResolveTable, LabelPos, ResolveFrames;
    var c, typing := Resolve(OBJECT, ForwardMethod(name).body), [NONE, ONE, NONE, NONE];
    ForwardCode(name);
    AgentProgram.ForwardResolved(OBJECT, ForwardMethod(name).body);
    forall q | 0 <= q < 4 ensures |typing[q].stack| <= 1 && InsnTyped(HandlerRules(), c, typing, q) {
      assert c.insns[q] == ForwardInsns(name)[q];
    }
    StraightTyped(c, typing);
  }

  /** The limits that the code of the handler declares: one slot. */
  lemma {:induction false} DeclaredLimits(name: string, counter: string, native: string)
    ensures Resolve(OBJECT, ForwardMethod(name).body).maxs == [(1, 0)]
    ensures Resolve(OBJECT, CountAndForward(counter, native)).maxs == [(1, 0)]
  {
    var b, d := ForwardMethod(name).body, CountAndForward(counter, native);
    OneMaxs(b, 6);
    OneMaxs(d, 5);
  }

  lemma {:induction false} OneMaxs(b: seq<Event>, i: nat)
    requires i < |b| && b[i].VisitMaxs? && forall j :: 0 <= j < |b| && j != i ==> !b[j].VisitMaxs?
    ensures ResolveMaxs(b) == [(b[i].maxStack, b[i].maxLocals)]
  {
    assert forall j :: 0 <= j < |b| - 1 ==> b[1..][j] == b[j + 1];
    if i == 0 {
      NoMaxs(b[1..]);
    } else {
      OneMaxs(b[1..], i - 1);
    }
  }

  lemma {:induction false} NoMaxs(b: seq<Event>)
    requires forall j :: 0 <= j < |b| ==> !b[j].VisitMaxs?
    ensures ResolveMaxs(b) == []
  {
    if b == [] {
    } else {
      assert forall j :: 0 <= j < |b| - 1 ==> b[1..][j] == b[j + 1];
      NoMaxs(b[1..]);
    }
  }

  /** While the handler runs, from its first instruction on and as long as it neither calls nor returns, no more than
      the declared slot of the stack is used. */
  lemma {:induction false} HandlerWithinLimits(prog: Program, k: Kind, s: State, t: Tid, input: int)
    requires HasHandler(prog)
    requires prog[CountMethod(k)] == Resolve(OBJECT, CountAndForward(CounterField(k), NativeName(k)))
    requires InDepth(prog, [NONE, ONE, ONE, NONE, NONE], s, t, CountMethod(k))
    requires Step(HandlerSemantics(), prog, t, input, s).Some?
    ensures |s.threads[t].frames[0].data.stack| <= 1
    ensures var s' := Step(HandlerSemantics(), prog, t, input, s).value;
            Alive(s', t) && |s'.threads[t].frames| == |s.threads[t].frames| && s'.threads[t].mode.Running? ==>
              InDepth(prog, [NONE, ONE, ONE, NONE, NONE], s', t, CountMethod(k))
  {
    hide Step, Sound, Typed, Resolve, CountMethod, HandlerRules, HandlerSemantics;
    RulesAreSound();
    CountTyped(CounterField(k), NativeName(k));
    TypedDepth(HandlerRules(), HandlerSemantics(), prog, [NONE, ONE, ONE, NONE, NONE], 1, t, input, s, CountMethod(k));
  }

  /** The first instruction is within the limits. */
  lemma {:induction false} BeginsWithinLimits(prog: Program, k: Kind, s: State, t: Tid, below: seq<Frame>,
      shared: Shared)
    requires HasHandler(prog)
    ensures InDepth(prog, [NONE, ONE, ONE, NONE, NONE],
        At(s, t, [Frame(CountMethod(k), 0, Data([], []))] + below, shared), t, CountMethod(k))
  {
    assert prog[CountMethod(k)].insns == CountInsns(CounterField(k), NativeName(k));
  }
}

/**
  Why the class writer may keep the old limits and stack maps (writer flags 0): a stack typing of the original code,
  carried over to the instrumented code position by position, is a stack typing of the instrumented code with
  the same maximal depth and the same declared frames.
 */
module StackTyping {
  import opened Wrappers
  import opened Bytecode
  import opened Placement
  import opened JavaVm
  import InsertedCalls
  import InstrumentedVm
  import WholeProgram

  datatype Shape = Shape(locals: seq<string>, stack: seq<string>)

  /** The typing rules of plain instructions are left open: `effect` is what an instruction makes of a shape (None if it
      does not accept it), `fallsThrough` whether the next instruction may follow it. */
  datatype Rules = Rules(
    effect: (Op, Shape) -> Option<Shape>,
    fallsThrough: Op -> bool,
    fits: (Shape, Shape) -> bool,
    isReference: string -> bool,
    declares: (seq<string>, Shape) -> bool)

  predicate FlowsTo(r: Rules, c: Code, typing: seq<Shape>, after: Shape, q: nat)
    requires |typing| == |c.insns|
  {
    q < |c.insns| && r.fits(after, typing[q])
  }

  predicate InsnTyped(r: Rules, c: Code, typing: seq<Shape>, q: nat)
    requires |typing| == |c.insns| && q < |c.insns|
  {
    match c.insns[q]
    case Monitor(_) =>
      && typing[q].stack != [] && r.isReference(typing[q].stack[0])
      && FlowsTo(r, c, typing, Shape(typing[q].locals, typing[q].stack[1..]), q + 1)
    case EventCall(_) => FlowsTo(r, c, typing, typing[q], q + 1)  // the descriptor is ()V
    case Plain(op, targets) =>
      && r.effect(op, typing[q]).Some?
      && (r.fallsThrough(op) ==> FlowsTo(r, c, typing, r.effect(op, typing[q]).value, q + 1))
      && forall j :: 0 <= j < |targets| ==> FlowsTo(r, c, typing, r.effect(op, typing[q]).value, targets[j])
  }

  /** The handler of a covered instruction accepts its locals and a stack that holds just the exception. */
  predicate HandlerTyped(r: Rules, c: Code, typing: seq<Shape>, i: nat, q: nat)
    requires |typing| == |c.insns| && i < |c.table| && q < |c.insns|
  {
    c.table[i].Covers(q) ==>
      FlowsTo(r, c, typing, Shape(typing[q].locals, [c.table[i].catchType]), c.table[i].handler)
  }

  predicate Typed(r: Rules, c: Code, typing: seq<Shape>, maxStack: nat) {
    && |typing| == |c.insns|
    && (forall q :: 0 <= q < |c.insns| ==> |typing[q].stack| <= maxStack && InsnTyped(r, c, typing, q))
    && (forall i, q :: 0 <= i < |c.table| && 0 <= q < |c.insns| ==> HandlerTyped(r, c, typing, i, q))
    && (forall i :: 0 <= i < |c.frames| && c.frames[i].at < |c.insns| ==>
          r.declares(c.frames[i].shape, typing[c.frames[i].at]))
  }

  lemma {:induction false} OldPosInside(c: Code, q: nat)
    requires Guarded(c) && q < |c.insns|
    ensures OldPos(c.insns, q) < |Erase(c).insns|
  {
    ErasedInsnAt(c.insns, c.insns, q);
    if c.insns[q].EventCall? {
      ErasedInsnAt(c.insns, c.insns, q + 1);
      OldPosMonotone(c.insns, q, q + 1);
    }
  }

  /** Each new position gets the shape of its old position; a call gets the shape of the instruction it precedes. */
  function CarriedOver(c: Code, typing: seq<Shape>): (r: seq<Shape>)
    requires Guarded(c) && |typing| == |Erase(c).insns|
    ensures |r| == |c.insns|
    ensures forall q :: 0 <= q < |r| ==> OldPos(c.insns, q) < |typing| && r[q] == typing[OldPos(c.insns, q)]
  {
    assert forall q :: 0 <= q < |c.insns| ==> OldPos(c.insns, q) < |typing| by {
      forall q | 0 <= q < |c.insns| ensures OldPos(c.insns, q) < |typing| { OldPosInside(c, q); }
    }
    seq(|c.insns|, q requires 0 <= q < |c.insns| => typing[OldPos(c.insns, q)])
  }

  lemma {:induction false} FlowKept(r: Rules, c: Code, typing: seq<Shape>, after: Shape, q: nat)
    requires Guarded(c) && |typing| == |Erase(c).insns| && q <= |c.insns|
    requires FlowsTo(r, Erase(c), typing, after, OldPos(c.insns, q))
    ensures FlowsTo(r, c, CarriedOver(c, typing), after, q)
  {
    ErasedInsnAt(c.insns, c.insns, |c.insns|);
  }

  lemma {:induction false} PlainTypedKept(r: Rules, c: Code, typing: seq<Shape>, q: nat)
    requires Guarded(c) && CodeOk(c) && |typing| == |Erase(c).insns| && q < |c.insns| && c.insns[q].Plain?
    requires OldPos(c.insns, q) < |typing| && InsnTyped(r, Erase(c), typing, OldPos(c.insns, q))
    ensures InsnTyped(r, c, CarriedOver(c, typing), q)
  {
    var p := OldPos(c.insns, q);
    ErasedInsnAt(c.insns, c.insns, q);
    OldPosMonotone(c.insns, q, q + 1);
    var op, targets := c.insns[q].op, c.insns[q].targets;
    var after := r.effect(op, typing[p]).value;
    if r.fallsThrough(op) { FlowKept(r, c, typing, after, q + 1); }
    forall j | 0 <= j < |targets| ensures FlowsTo(r, c, CarriedOver(c, typing), after, targets[j]) {
      assert Erase(c).insns[p].targets[j] == OldPos(c.insns, targets[j]);
      FlowKept(r, c, typing, after, targets[j]);
    }
  }

  lemma {:induction false} MonitorTypedKept(r: Rules, c: Code, typing: seq<Shape>, q: nat)
    requires Guarded(c) && |typing| == |Erase(c).insns| && q < |c.insns| && c.insns[q].Monitor?
    requires OldPos(c.insns, q) < |typing| && InsnTyped(r, Erase(c), typing, OldPos(c.insns, q))
    ensures InsnTyped(r, c, CarriedOver(c, typing), q)
  {
    var p := OldPos(c.insns, q);
    ErasedInsnAt(c.insns, c.insns, q);
    OldPosMonotone(c.insns, q, q + 1);
    FlowKept(r, c, typing, Shape(typing[p].locals, typing[p].stack[1..]), q + 1);
  }

  lemma {:induction false} CallTyped(r: Rules, c: Code, typing: seq<Shape>, q: nat)
    requires Guarded(c) && |typing| == |Erase(c).insns| && q < |c.insns| && c.insns[q].EventCall?
    requires forall s :: r.fits(s, s)
    ensures InsnTyped(r, c, CarriedOver(c, typing), q)
  {
    OldPosMonotone(c.insns, q, q + 1);
    assert CarriedOver(c, typing)[q + 1] == CarriedOver(c, typing)[q];
  }

  lemma {:induction false} InsnTypedKept(r: Rules, c: Code, typing: seq<Shape>, maxStack: nat, q: nat)
    requires Guarded(c) && CodeOk(c) && Typed(r, Erase(c), typing, maxStack) && q < |c.insns|
    requires forall s :: r.fits(s, s)
    ensures InsnTyped(r, c, CarriedOver(c, typing), q)
  {
    OldPosInside(c, q);
    assert InsnTyped(r, Erase(c), typing, OldPos(c.insns, q));
    match c.insns[q]
    case Monitor(_) => MonitorTypedKept(r, c, typing, q);
    case EventCall(_) => CallTyped(r, c, typing, q);
    case Plain(_, _) => PlainTypedKept(r, c, typing, q);
  }

  lemma {:induction false} HandlerTypedKept(r: Rules, c: Code, typing: seq<Shape>, maxStack: nat, i: nat, q: nat)
    requires Guarded(c) && CodeOk(c) && Typed(r, Erase(c), typing, maxStack) && i < |c.table| && q < |c.insns|
    ensures HandlerTyped(r, c, CarriedOver(c, typing), i, q)
  {
    var e := c.table[i];
    if e.Covers(q) {
      // a call is covered exactly when the instruction behind it is
      var behind := if c.insns[q].EventCall? then q + 1 else q;
      assert NotInside(c, e.end);
      assert e.Covers(behind);
      OldPosMonotone(c.insns, q, behind);
      CoverageKept(c.insns, e, behind);
      OldPosInside(c, q);
      var p := OldPos(c.insns, q);
      assert OldPos(c.insns, behind) == p;
      assert HandlerTyped(r, Erase(c), typing, i, p);
      FlowKept(r, c, typing, Shape(typing[p].locals, [e.catchType]), e.handler);
    }
  }

  /** Any stack typing of the original code extends to the instrumented code with the same limit and frames. */
  lemma {:induction false} TypingCarriesOver(r: Rules, c: Code, typing: seq<Shape>, maxStack: nat)
    requires Guarded(c) && CodeOk(c) && Typed(r, Erase(c), typing, maxStack)
    requires forall s :: r.fits(s, s)
    requires forall i :: 0 <= i < |c.frames| ==> c.frames[i].at <= |c.insns|
    ensures Typed(r, c, CarriedOver(c, typing), maxStack)
  {
    var carried := CarriedOver(c, typing);
    forall q | 0 <= q < |c.insns| ensures |carried[q].stack| <= maxStack && InsnTyped(r, c, carried, q) {
      InsnTypedKept(r, c, typing, maxStack, q);
    }
    forall i, q | 0 <= i < |c.table| && 0 <= q < |c.insns| ensures HandlerTyped(r, c, carried, i, q) {
      HandlerTypedKept(r, c, typing, maxStack, i, q);
    }
    forall i | 0 <= i < |c.frames| && c.frames[i].at < |c.insns|
        ensures r.declares(c.frames[i].shape, carried[c.frames[i].at]) {
      assert Erase(c).frames[i] == EraseFrame(c.insns, c.frames[i]);
    }
  }

  /** For every method: any stack typing of its original code within `maxStack` is one of its instrumented code. */
  lemma {:induction false} InstrumentedMethodTyped(r: Rules, h: string, es: seq<Event>, typing: seq<Shape>,
          maxStack: nat) returns (typing': seq<Shape>)
    requires InsertedCalls.NoHandlerCalls(h, es) && CodeOk(Resolve(h, es)) && Typed(r, Resolve(h, es), typing, maxStack)
    requires forall s :: r.fits(s, s)
    ensures var c := Resolve(h, InsertedCalls.InstrumentEvents(h, es));
            Typed(r, c, typing', maxStack) && c.maxs == Resolve(h, es).maxs
  {
    var c := Resolve(h, InsertedCalls.InstrumentEvents(h, es));
    InsertedCalls.ErasureUndoesInstrumentation(h, es);
    InstrumentedIsGuarded(h, es);
    WholeProgram.ResolvedInRange(h, InsertedCalls.InstrumentEvents(h, es));
    WholeProgram.EraseReflectsOk(c);
    TypingCarriesOver(r, c, typing, maxStack);
    typing' := CarriedOver(c, typing);
  }

  // ---------------------------------------------------------------- what a typing says about runs

  /** The rules are right about the machine as far as stack depth goes. */
  ghost predicate Sound(r: Rules, sem: Semantics) {
    && (forall a, b :: r.fits(a, b) ==> |a.stack| == |b.stack|)
    && forall op: Op, input: int, t: Tid, m: MethodId, data: Data, shared: Shared, shape: Shape ::
         |data.stack| == |shape.stack| && r.effect(op, shape).Some? ==>
           OutcomeFits(r, op, r.effect(op, shape).value, sem.exec(op, input, t, m, data, shared))
  }

  predicate OutcomeFits(r: Rules, op: Op, after: Shape, o: Outcome) {
    match o
    case Next(data, _) => r.fallsThrough(op) && |data.stack| == |after.stack|
    case Start(_, _, _, data, _) => r.fallsThrough(op) && |data.stack| == |after.stack|
    case Jump(_, data, _) => |data.stack| == |after.stack|
    case _ => true
  }

  /** The thread is in method `m`, and its stack is as deep as the typing says. */
  predicate InDepth(prog: Program, typing: seq<Shape>, s: State, t: Tid, m: MethodId) {
    && Alive(s, t) && s.threads[t].frames[0].mid == m && m in prog && |typing| == |prog[m].insns|
    && s.threads[t].frames[0].pc < |typing|
    && |s.threads[t].frames[0].data.stack| == |typing[s.threads[t].frames[0].pc].stack|
  }

  lemma {:induction false} PlainInDepth(r: Rules, sem: Semantics, prog: Program, typing: seq<Shape>, t: Tid, input: int,
      s: State)
    requires Sound(r, sem) && Alive(s, t) && s.threads[t].mode.Running?
    requires var m := s.threads[t].frames[0].mid; InDepth(prog, typing, s, t, m)
    requires var f := s.threads[t].frames[0];
             prog[f.mid].insns[f.pc].Plain? && InsnTyped(r, prog[f.mid], typing, f.pc)
    requires Step(sem, prog, t, input, s).Some?
    ensures var s' := Step(sem, prog, t, input, s).value;
            Alive(s', t) && |s'.threads[t].frames| == |s.threads[t].frames| && s'.threads[t].mode.Running? ==>
              InDepth(prog, typing, s', t, s.threads[t].frames[0].mid)
  {
    var f := s.threads[t].frames[0];
    var i := prog[f.mid].insns[f.pc];
    var o := sem.exec(i.op, input, t, f.mid, f.data, s.shared);
    assert OutcomeFits(r, i.op, r.effect(i.op, typing[f.pc]).value, o);
    if o.Jump? && o.target < |i.targets| {
      assert FlowsTo(r, prog[f.mid], typing, r.effect(i.op, typing[f.pc]).value, i.targets[o.target]);
    }
  }

  lemma {:induction false} FoundCovers(sem: Semantics, table: seq<Range>, pc: nat, exc: Value, shared: Shared)
    ensures var i := FindHandler(sem, table, pc, exc, shared); i < |table| ==> table[i].Covers(pc)
  {
    if table == [] {
    } else {
      FoundCovers(sem, table[1..], pc, exc, shared);
    }
  }

  lemma {:induction false} MonitorInDepth(r: Rules, sem: Semantics, prog: Program, typing: seq<Shape>, t: Tid,
      input: int, s: State)
    requires Sound(r, sem) && Alive(s, t) && s.threads[t].mode.Running?
    requires var m := s.threads[t].frames[0].mid; InDepth(prog, typing, s, t, m)
    requires var f := s.threads[t].frames[0];
             prog[f.mid].insns[f.pc].Monitor? && InsnTyped(r, prog[f.mid], typing, f.pc)
    requires Step(sem, prog, t, input, s).Some?
    ensures var s' := Step(sem, prog, t, input, s).value;
            Alive(s', t) && s'.threads[t].mode.Running? ==> InDepth(prog, typing, s', t, s.threads[t].frames[0].mid)
  {}

  lemma {:induction false} UnwindInDepth(r: Rules, sem: Semantics, prog: Program, typing: seq<Shape>, maxStack: nat,
      t: Tid, input: int, s: State)
    requires Sound(r, sem) && Alive(s, t) && s.threads[t].mode.Unwinding?
    requires var m := s.threads[t].frames[0].mid;
             InDepth(prog, typing, s, t, m) && Typed(r, prog[m], typing, maxStack)
    ensures var r := Step(sem, prog, t, input, s);
            r.Some? && Alive(r.value, t) && r.value.threads[t].mode.Running? ==>
              InDepth(prog, typing, r.value, t, s.threads[t].frames[0].mid)
  {
    var f := s.threads[t].frames[0];
    var table := prog[f.mid].table;
    var i := FindHandler(sem, table, f.pc, s.threads[t].mode.exc, s.shared);
    FoundCovers(sem, table, f.pc, s.threads[t].mode.exc, s.shared);
    if i < |table| { assert HandlerTyped(r, prog[f.mid], typing, i, f.pc); }
  }

  lemma {:induction false} NoStepAtCall(sem: Semantics, prog: Program, t: Tid, input: int, s: State)
    requires AtEventCall(prog, s, t)
    ensures Step(sem, prog, t, input, s).None?
  {}

  /** In a typed method the stack is as deep as the typing says wherever the thread gets to without calling or
      returning, through monitor instructions, branches and handlers; so it is never deeper than the limit. */
  lemma {:induction false} TypedDepth(r: Rules, sem: Semantics, prog: Program, typing: seq<Shape>, maxStack: nat,
      t: Tid, input: int, s: State, m: MethodId)
    requires Sound(r, sem) && InDepth(prog, typing, s, t, m) && Typed(r, prog[m], typing, maxStack)
    requires Step(sem, prog, t, input, s).Some?
    ensures |s.threads[t].frames[0].data.stack| <= maxStack
    ensures var s' := Step(sem, prog, t, input, s).value;
            Alive(s', t) && |s'.threads[t].frames| == |s.threads[t].frames| && s'.threads[t].mode.Running? ==>
              InDepth(prog, typing, s', t, m) && |s'.threads[t].frames[0].data.stack| <= maxStack
  {
    hide Step, Sound, InsnTyped, HandlerTyped;
    var f := s.threads[t].frames[0];
    assert InsnTyped(r, prog[m], typing, f.pc);
    if s.threads[t].mode.Unwinding? {
      UnwindInDepth(r, sem, prog, typing, maxStack, t, input, s);
    } else {
      match prog[m].insns[f.pc]
      case Monitor(_) => MonitorInDepth(r, sem, prog, typing, t, input, s);
      case EventCall(_) => NoStepAtCall(sem, prog, t, input, s);
      case Plain(_, _) => PlainInDepth(r, sem, prog, typing, t, input, s);
    }
  }

  /** An inserted call leaves the depth as it is, so the same holds behind it. */
  lemma {:induction false} CallDepth(r: Rules, sem: Semantics, prog: Program, typing: seq<Shape>, maxStack: nat, t: Tid,
      s: State, m: MethodId)
    requires Sound(r, sem) && InDepth(prog, typing, s, t, m) && Typed(r, prog[m], typing, maxStack)
    requires AtEventCall(prog, s, t)
    ensures InDepth(prog, typing, InstrumentedVm.ReturnFromCall(s, t), t, m)
  {
    assert InsnTyped(r, prog[m], typing, s.threads[t].frames[0].pc);
  }

  /** Code that enters and leaves a monitor has a typing, and needs exactly one stack slot. */
  lemma {:induction false} MonitorPairTyped(r: Rules, load: Op, end: Op, maxStack: nat)
    requires forall s :: r.fits(s, s)
    requires r.isReference("java/lang/Object") && r.fallsThrough(load) && !r.fallsThrough(end)
    requires r.effect(load, Shape([], [])) == Some(Shape([], ["java/lang/Object"]))
    requires r.effect(end, Shape([], [])).Some?
    ensures var insns := [Plain(load, []), Monitor(Enter), Plain(load, []), Monitor(Exit), Plain(end, [])];
            var c, none, one := Code(insns, [], [], []), Shape([], []), Shape([], ["java/lang/Object"]);
            Typed(r, c, [none, one, none, one, none], maxStack) <==> maxStack >= 1
  {
    var c := Code([Plain(load, []), Monitor(Enter), Plain(load, []), Monitor(Exit), Plain(end, [])], [], [], []);
    var none, one := Shape([], []), Shape([], ["java/lang/Object"]);
    var typing := [none, one, none, one, none];
    forall q | 0 <= q < 5 ensures InsnTyped(r, c, typing, q) {
      assert ["java/lang/Object"][1..] == [];
    }
    assert |typing[1].stack| == 1;
  }
}

/**
  Methods as ASM delivers them (a list of visitor events with symbolic labels) and as the virtual
  machine runs them (an array of instructions with numeric positions, and an exception table).
  `Resolve` goes from the first form to the second; `Erase` removes event calls from the second.
 */
module Bytecode {

  type Label = nat

  const MONITORENTER := 194
  const MONITOREXIT := 195
  const INVOKESTATIC := 184
  const ENTER_NAME := "phasicj$agent$rt$monitorEnter"
  const EXIT_NAME := "phasicj$agent$rt$monitorExit"
  const VOID_DESC := "()V"

  datatype Kind = Enter | Exit

  /** One callback of ASM's MethodVisitor. The `news` labels of a frame stand in front of the NEW instructions that its
      uninitialized values come from. `VisitTypeInsn` stands for type instructions and class constants,
      `VisitOther` for every instruction callback that is not singled out: its labels are the jump or switch
      targets, if it has any. */
  datatype Event =
    | VisitTryCatch(start: Label, end: Label, handler: Label, catchType: string)
    | VisitLabel(l: Label)
    | VisitFrame(shape: seq<string>, news: seq<Label>)
    | VisitInsn(opcode: nat)
    | VisitMethodInsn(opcode: nat, owner: string, name: string, desc: string, itf: bool)
    | VisitFieldInsn(opcode: nat, owner: string, name: string, desc: string)
    | VisitTypeInsn(opcode: nat, ty: string)
    | VisitOther(opcode: nat, operands: seq<int>, labels: seq<Label>)
    | VisitMaxs(maxStack: nat, maxLocals: nat)
  {
    predicate IsInsn() {
      VisitInsn? || VisitMethodInsn? || VisitFieldInsn? || VisitTypeInsn? || VisitOther?
    }
  }

  /** What an instruction does, apart from where it jumps to. */
  datatype Op =
    | ZeroOperand(opcode: nat)
    | CallOp(opcode: nat, owner: string, name: string, desc: string, itf: bool)
    | FieldOp(opcode: nat, owner: string, name: string, desc: string)
    | TypeOp(opcode: nat, ty: string)
    | OtherOp(opcode: nat, operands: seq<int>)

  datatype Insn =
    | Monitor(kind: Kind)
    | EventCall(kind: Kind)
    | Plain(op: Op, targets: seq<nat>)

  /** An exception table entry; it covers the positions from `start` up to but not including `end`. */
  datatype Range = Range(start: nat, end: nat, handler: nat, catchType: string) {
    predicate Covers(p: nat) { start <= p < end }
  }

  /** The positions of the NEW instructions of uninitialized values are part of a stack map. */
  datatype StackMap = StackMap(at: nat, shape: seq<string>, news: seq<nat>)

  datatype Code = Code(insns: seq<Insn>, table: seq<Range>, frames: seq<StackMap>, maxs: seq<(nat, nat)>)

  // ---------------------------------------------------------------- label resolution

  function HandlerName(k: Kind): string {
    if k.Enter? then ENTER_NAME else EXIT_NAME
  }

  function HandlerCall(h: string, k: Kind): Event {
    VisitMethodInsn(INVOKESTATIC, h, HandlerName(k), VOID_DESC, false)
  }

  predicate IsHandlerCall(h: string, e: Event) {
    e == HandlerCall(h, Enter) || e == HandlerCall(h, Exit)
  }

  /** The position a label stands for: the number of instructions visited before it. */
  function LabelPos(es: seq<Event>, l: Label): nat {
    if es == [] || es[0] == VisitLabel(l) then 0
    else (if es[0].IsInsn() then 1 else 0) + LabelPos(es[1..], l)
  }

  function LabelPositions(es: seq<Event>, ls: seq<Label>): (r: seq<nat>)
    ensures |r| == |ls| && forall i :: 0 <= i < |ls| ==> r[i] == LabelPos(es, ls[i])
  {
    seq(|ls|, i requires 0 <= i < |ls| => LabelPos(es, ls[i]))
  }

  function ResolveInsn(h: string, all: seq<Event>, e: Event): Insn
    requires e.IsInsn()
  {
    if e == HandlerCall(h, Enter) then EventCall(Enter)
    else if e == HandlerCall(h, Exit) then EventCall(Exit)
    else match e
      case VisitInsn(opcode) =>
        if opcode == MONITORENTER then Monitor(Enter)
        else if opcode == MONITOREXIT then Monitor(Exit)
        else Plain(ZeroOperand(opcode), [])
      case VisitMethodInsn(opcode, owner, name, desc, itf) => Plain(CallOp(opcode, owner, name, desc, itf), [])
      case VisitFieldInsn(opcode, owner, name, desc) => Plain(FieldOp(opcode, owner, name, desc), [])
      case VisitTypeInsn(opcode, ty) => Plain(TypeOp(opcode, ty), [])
      case VisitOther(opcode, operands, labels) => Plain(OtherOp(opcode, operands), LabelPositions(all, labels))
  }

  function ResolveInsns(h: string, all: seq<Event>, es: seq<Event>): seq<Insn> {
    if es == [] then []
    else (if es[0].IsInsn() then [ResolveInsn(h, all, es[0])] else []) + ResolveInsns(h, all, es[1..])
  }

  function ResolveRange(all: seq<Event>, e: Event): seq<Range> {
    if e.VisitTryCatch? then
      [Range(LabelPos(all, e.start), LabelPos(all, e.end), LabelPos(all, e.handler), e.catchType)]
    else []
  }

  function ResolveTable(all: seq<Event>, es: seq<Event>): seq<Range> {
    if es == [] then [] else ResolveRange(all, es[0]) + ResolveTable(all, es[1..])
  }

  function ResolveFrame(all: seq<Event>, at: nat, e: Event): seq<StackMap> {
    if e.VisitFrame? then [StackMap(at, e.shape, LabelPositions(all, e.news))] else []
  }

  /** Stack map frames belong to the next instruction; `at` counts the instructions already visited. */
  function ResolveFrames(all: seq<Event>, at: nat, es: seq<Event>): seq<StackMap>
    decreases es
  {
    if es == [] then []
    else ResolveFrame(all, at, es[0]) + ResolveFrames(all, if es[0].IsInsn() then at + 1 else at, es[1..])
  }

  function ResolveMaxs(es: seq<Event>): seq<(nat, nat)> {
    if es == [] then []
    else (if es[0].VisitMaxs? then [(es[0].maxStack, es[0].maxLocals)] else []) + ResolveMaxs(es[1..])
  }

  function Resolve(h: string, es: seq<Event>): Code {
    Code(ResolveInsns(h, es, es), ResolveTable(es, es), ResolveFrames(es, 0, es), ResolveMaxs(es))
  }

  // ---------------------------------------------------------------- erasing event calls

  /** How many of the first `q` instructions are not event calls: the position `q` had before any
      event call was inserted. */
  function OldPos(insns: seq<Insn>, q: nat): nat {
    if q == 0 || insns == [] then 0
    else (if insns[0].EventCall? then 0 else 1) + OldPos(insns[1..], q - 1)
  }

  function OldPositions(insns: seq<Insn>, qs: seq<nat>): (r: seq<nat>)
    ensures |r| == |qs| && forall i :: 0 <= i < |qs| ==> r[i] == OldPos(insns, qs[i])
  {
    seq(|qs|, i requires 0 <= i < |qs| => OldPos(insns, qs[i]))
  }

  function EraseInsn(all: seq<Insn>, i: Insn): Insn {
    if i.Plain? then Plain(i.op, OldPositions(all, i.targets)) else i
  }

  function EraseInsns(all: seq<Insn>, insns: seq<Insn>): seq<Insn> {
    if insns == [] then []
    else (if insns[0].EventCall? then [] else [EraseInsn(all, insns[0])]) + EraseInsns(all, insns[1..])
  }

  function EraseRange(all: seq<Insn>, r: Range): Range {
    Range(OldPos(all, r.start), OldPos(all, r.end), OldPos(all, r.handler), r.catchType)
  }

  function EraseTable(all: seq<Insn>, table: seq<Range>): (r: seq<Range>)
    ensures |r| == |table| && forall i :: 0 <= i < |r| ==> r[i] == EraseRange(all, table[i])
  {
    seq(|table|, i requires 0 <= i < |table| => EraseRange(all, table[i]))
  }

  function EraseFrame(all: seq<Insn>, f: StackMap): StackMap {
    StackMap(OldPos(all, f.at), f.shape, OldPositions(all, f.news))
  }

  function EraseFrames(all: seq<Insn>, fs: seq<StackMap>): (r: seq<StackMap>)
    ensures |r| == |fs| && forall i :: 0 <= i < |r| ==> r[i] == EraseFrame(all, fs[i])
  {
    seq(|fs|, i requires 0 <= i < |fs| => EraseFrame(all, fs[i]))
  }

  function Erase(c: Code): Code {
    Code(EraseInsns(c.insns, c.insns), EraseTable(c.insns, c.table), EraseFrames(c.insns, c.frames), c.maxs)
  }

  // ---------------------------------------------------------------- properties of positions

  lemma {:induction false} OldPosMonotone(insns: seq<Insn>, p: nat, q: nat)
    requires p <= q <= |insns|
    ensures OldPos(insns, p) <= OldPos(insns, q) <= OldPos(insns, p) + (q - p)
    ensures p < q && !insns[p].EventCall? ==> OldPos(insns, p) < OldPos(insns, q)
    ensures p < q && (forall i :: p <= i < q ==> insns[i].EventCall?) ==> OldPos(insns, p) == OldPos(insns, q)
  {
    if p > 0 {
      OldPosMonotone(insns[1..], p - 1, q - 1);
      assert forall i :: p <= i < q ==> insns[i] == insns[1..][i - 1];
      assert (forall i :: p <= i < q ==> insns[i].EventCall?) ==>
          forall i :: p - 1 <= i < q - 1 ==> insns[1..][i].EventCall? by {
        assert forall i :: p - 1 <= i < q - 1 ==> insns[1..][i] == insns[i + 1];
      }
    } else if q > 0 {
      OldPosMonotone(insns[1..], 0, q - 1);
      assert forall i :: 0 <= i < q - 1 ==> insns[1..][i] == insns[i + 1];
    }
  }

  lemma {:induction false} OldPosConcat(a: seq<Insn>, b: seq<Insn>, q: nat)
    requires q <= |b|
    ensures OldPos(a + b, |a| + q) == OldPos(a, |a|) + OldPos(b, q)
  {
    if a == [] {
      assert a + b == b;
    } else {
      assert (a + b)[1..] == a[1..] + b;
      OldPosConcat(a[1..], b, q);
    }
  }

  /** The instruction that stands at the old position of `q` once event calls are gone is the one at `q`. */
  lemma {:induction false} ErasedInsnAt(all: seq<Insn>, insns: seq<Insn>, q: nat)
    requires q <= |insns|
    ensures OldPos(insns, q) <= |EraseInsns(all, insns)|
    ensures q < |insns| && !insns[q].EventCall? ==>
              OldPos(insns, q) < |EraseInsns(all, insns)| &&
              EraseInsns(all, insns)[OldPos(insns, q)] == EraseInsn(all, insns[q])
    ensures q == |insns| ==> OldPos(insns, q) == |EraseInsns(all, insns)|
  {
    if q == 0 {
    } else {
      ErasedInsnAt(all, insns[1..], q - 1);
    }
  }

  /** A real instruction is covered by a range exactly when, after erasing, its old position is covered. */
  lemma {:induction false} CoverageKept(insns: seq<Insn>, r: Range, q: nat)
    requires r.start <= |insns| && r.end <= |insns|
    requires q < |insns| && !insns[q].EventCall?
    ensures r.Covers(q) <==> EraseRange(insns, r).Covers(OldPos(insns, q))
  {
    if r.start <= q { OldPosMonotone(insns, r.start, q); } else { OldPosMonotone(insns, q, r.start); }
    if r.end <= q { OldPosMonotone(insns, r.end, q); } else { OldPosMonotone(insns, q, r.end); }
  }
}

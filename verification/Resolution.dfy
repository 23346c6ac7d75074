/**
  What resolving labels means, said in terms of the order of a method's events: a label stands for the next instruction,
  an exception range covers what is visited between its labels, a stack map belongs to the next instruction.
 */
module Resolution {
  import opened Bytecode

  function CountInsns(es: seq<Event>): nat {
    if es == [] then 0 else (if es[0].IsInsn() then 1 else 0) + CountInsns(es[1..])
  }

  lemma {:induction false} CountConcat(a: seq<Event>, b: seq<Event>)
    ensures CountInsns(a + b) == CountInsns(a) + CountInsns(b)
  {
    if a == [] {
      assert a + b == b;
    } else {
      assert (a + b)[1..] == a[1..] + b;
      CountConcat(a[1..], b);
    }
  }

  /** Label `l` is visited at place `p`, and not before. */
  predicate FirstVisit(es: seq<Event>, l: Label, p: nat) {
    p < |es| && es[p] == VisitLabel(l) && VisitLabel(l) !in es[..p]
  }

  /** A label's position is the number of instructions visited before it. */
  lemma {:induction false} LabelPosCounts(es: seq<Event>, l: Label, p: nat)
    requires FirstVisit(es, l, p)
    ensures LabelPos(es, l) == CountInsns(es[..p])
  {
    if p == 0 {
    } else {
      assert es[0] in es[..p] && es[..p][1..] == es[1..][..p - 1];
      assert forall e :: e in es[1..][..p - 1] ==> e in es[..p];
      LabelPosCounts(es[1..], l, p - 1);
    }
  }

  /** The instruction visited at place `q` is resolved to the one after as many others as were visited before it. */
  lemma {:induction false} InsnResolved(h: string, all: seq<Event>, es: seq<Event>, q: nat)
    requires q < |es| && es[q].IsInsn()
    ensures var r := ResolveInsns(h, all, es);
            |r| == CountInsns(es) && CountInsns(es[..q]) < |r| && r[CountInsns(es[..q])] == ResolveInsn(h, all, es[q])
    decreases q
  {
    hide ResolveInsn;
    InsnCount(h, all, es);
    if q == 0 {
    } else {
      assert es[..q][1..] == es[1..][..q - 1];
      InsnResolved(h, all, es[1..], q - 1);
    }
  }

  lemma {:induction false} InsnCount(h: string, all: seq<Event>, es: seq<Event>)
    ensures |ResolveInsns(h, all, es)| == CountInsns(es)
  {
    hide ResolveInsn;
    if es == [] {
    } else {
      InsnCount(h, all, es[1..]);
    }
  }

  /** A label stands for the first instruction that is visited after it, and behind the last one if there is none. */
  lemma {:induction false} LabelIsNextInsn(h: string, es: seq<Event>, l: Label, p: nat, q: nat)
    requires FirstVisit(es, l, p) && p < q <= |es| && forall i :: p <= i < q ==> !es[i].IsInsn()
    ensures q == |es| ==> LabelPos(es, l) == |Resolve(h, es).insns|
    ensures q < |es| && es[q].IsInsn() ==>
              LabelPos(es, l) < |Resolve(h, es).insns| &&
              Resolve(h, es).insns[LabelPos(es, l)] == ResolveInsn(h, es, es[q])
  {
    LabelPosCounts(es, l, p);
    NothingBetween(es, p, q);
    InsnCount(h, es, es);
    assert es[..|es|] == es;
    if q < |es| && es[q].IsInsn() { InsnResolved(h, es, es, q); }
  }

  lemma {:induction false} NothingBetween(es: seq<Event>, p: nat, q: nat)
    requires p <= q <= |es| && forall i :: p <= i < q ==> !es[i].IsInsn()
    ensures CountInsns(es[..p]) == CountInsns(es[..q])
  {
    if p < q {
      NothingBetween(es, p, q - 1);
      assert es[..q] == es[..q - 1] + [es[q - 1]];
      CountConcat(es[..q - 1], [es[q - 1]]);
    }
  }

  lemma {:induction false} CountGrows(es: seq<Event>, p: nat, q: nat)
    requires p <= q <= |es|
    ensures CountInsns(es[..p]) <= CountInsns(es[..q])
    ensures p < q && es[p].IsInsn() ==> CountInsns(es[..p]) < CountInsns(es[..q])
  {
    assert es[..q] == es[..p] + es[p..q];
    CountConcat(es[..p], es[p..q]);
  }

  /** A label is at or before an instruction exactly when it is visited before it. */
  lemma {:induction false} LabelBefore(es: seq<Event>, l: Label, p: nat, q: nat)
    requires FirstVisit(es, l, p) && q < |es| && es[q].IsInsn()
    ensures LabelPos(es, l) <= CountInsns(es[..q]) <==> p < q
  {
    LabelPosCounts(es, l, p);
    if p < q { CountGrows(es, p, q); } else { CountGrows(es, q, p); }
  }

  /** An exception range covers the instruction visited at `q` exactly when its start label was visited before it and
      its end label was not; and its handler is where the handler label stands. */
  lemma {:induction false} RangeIsBetween(es: seq<Event>, e: Event, first: nat, last: nat, q: nat)
    requires e.VisitTryCatch? && FirstVisit(es, e.start, first) && FirstVisit(es, e.end, last)
    requires q < |es| && es[q].IsInsn()
    ensures |ResolveRange(es, e)| == 1
    ensures var r := ResolveRange(es, e)[0];
            && (r.Covers(CountInsns(es[..q])) <==> first < q && !(last < q))
            && r.handler == LabelPos(es, e.handler) && r.catchType == e.catchType
  {
    LabelBefore(es, e.start, first, q);
    LabelBefore(es, e.end, last, q);
  }

  /** The exception table holds the ranges of the events in their order. */
  lemma {:induction false} TableInOrder(all: seq<Event>, a: seq<Event>, e: Event, b: seq<Event>)
    ensures ResolveTable(all, a + [e] + b) == ResolveTable(all, a) + ResolveRange(all, e) + ResolveTable(all, b)
    ensures !e.VisitTryCatch? ==> ResolveRange(all, e) == []
  {
    hide ResolveRange;
    if a == [] {
      assert a + [e] + b == [e] + b && ([e] + b)[1..] == b;
      assert [] + ResolveRange(all, e) == ResolveRange(all, e);
    } else {
      assert (a + [e] + b)[1..] == a[1..] + [e] + b;
      TableInOrder(all, a[1..], e, b);
      var x, y, z := ResolveRange(all, a[0]), ResolveTable(all, a[1..]), ResolveRange(all, e);
      assert x + (y + z + ResolveTable(all, b)) == (x + y) + z + ResolveTable(all, b);
    }
    NoRange(all, e);
  }

  lemma {:induction false} NoRange(all: seq<Event>, e: Event)
    ensures !e.VisitTryCatch? ==> ResolveRange(all, e) == []
  {}

  /** The stack map of a frame event at place `q` is that of the next instruction. */
  lemma {:induction false} FrameIsAtNext(all: seq<Event>, at: nat, es: seq<Event>, q: nat)
    requires q < |es| && es[q].VisitFrame?
    ensures exists i :: 0 <= i < |ResolveFrames(all, at, es)| && ResolveFrames(all, at, es)[i] ==
              StackMap(at + CountInsns(es[..q]), es[q].shape, LabelPositions(all, es[q].news))
    decreases q
  {
    var fs := ResolveFrames(all, at, es);
    var goal := StackMap(at + CountInsns(es[..q]), es[q].shape, LabelPositions(all, es[q].news));
    if q == 0 {
      assert fs[0] == goal;
    } else {
      var at' := if es[0].IsInsn() then at + 1 else at;
      var rest := ResolveFrames(all, at', es[1..]);
      assert es[..q][1..] == es[1..][..q - 1];
      FrameIsAtNext(all, at', es[1..], q - 1);
      var i :| 0 <= i < |rest| && rest[i] == goal;
      assert fs[|ResolveFrame(all, at, es[0])| + i] == goal;
    }
  }

  function CountFrames(es: seq<Event>): nat {
    if es == [] then 0 else (if es[0].VisitFrame? then 1 else 0) + CountFrames(es[1..])
  }

  /** There are no other stack maps. */
  lemma {:induction false} FramesCounted(all: seq<Event>, at: nat, es: seq<Event>)
    ensures |ResolveFrames(all, at, es)| == CountFrames(es)
    decreases es
  {
    if es == [] {
    } else {
      FramesCounted(all, if es[0].IsInsn() then at + 1 else at, es[1..]);
    }
  }

  /** Resolving keeps what an instruction does and where it jumps to. */
  lemma {:induction false} InsnKept(h: string, all: seq<Event>, e: Event)
    requires e.IsInsn()
    ensures var i := ResolveInsn(h, all, e);
            && (i == Monitor(Enter) <==> e == VisitInsn(194)) && (i == Monitor(Exit) <==> e == VisitInsn(195))
            && (i == EventCall(Enter) <==>
                  e == VisitMethodInsn(184, h, "phasicj$agent$rt$monitorEnter", "()V", false))
            && (i == EventCall(Exit) <==> e == VisitMethodInsn(184, h, "phasicj$agent$rt$monitorExit", "()V", false))
            && (i.Plain? && e.VisitInsn? ==> i.op == ZeroOperand(e.opcode))
            && (i.Plain? && e.VisitMethodInsn? ==> i.op == CallOp(e.opcode, e.owner, e.name, e.desc, e.itf))
            && (i.Plain? && e.VisitFieldInsn? ==> i.op == FieldOp(e.opcode, e.owner, e.name, e.desc))
            && (i.Plain? && e.VisitTypeInsn? ==> i.op == TypeOp(e.opcode, e.ty))
            && (i.Plain? && e.VisitOther? ==> i.op == OtherOp(e.opcode, e.operands))
            && (i.Plain? ==> |i.targets| == if e.VisitOther? then |e.labels| else 0)
            && (i.Plain? ==> forall j :: 0 <= j < |i.targets| ==> i.targets[j] == LabelPos(all, e.labels[j]))
  {
    assert |"phasicj$agent$rt$monitorEnter"| == 29 && |"phasicj$agent$rt$monitorExit"| == 28;
  }
}

/**
  Where the inserted calls stand. The old-to-new position map is strictly monotone, labels move with it, a branch
  to a monitor instruction lands on the call in front of it, and exception coverage does not change.
 */
module Placement {
  import opened Bytecode
  import opened InsertedCalls

  /** The position of the first instruction emitted for the `p`-th original instruction. */
  function NewPos(insns: seq<Insn>, p: nat): nat {
    if p == 0 || insns == [] then 0
    else (if insns[0].Monitor? then 2 else 1) + NewPos(insns[1..], p - 1)
  }

  /** The index of the first table entry that covers `p`, if any; later entries are never considered there. */
  function FirstCovering(table: seq<Range>, p: nat): (i: nat)
    ensures i <= |table|
    ensures i < |table| ==> table[i].Covers(p)
    ensures forall j :: 0 <= j < i ==> !table[j].Covers(p)
  {
    if table == [] || table[0].Covers(p) then 0
    else
      var i := 1 + FirstCovering(table[1..], p);
      assert forall j :: 1 <= j < i ==> table[j] == table[1..][j - 1];
      i
  }

  /** Every monitor instruction comes right after the event call of its own kind, every event call comes right
      before its monitor instruction, and control never enters between the two. */
  predicate Guarded(c: Code) {
    && (forall q :: 0 <= q < |c.insns| && c.insns[q].Monitor? ==>
          q > 0 && c.insns[q - 1] == EventCall(c.insns[q].kind))
    && (forall q :: 0 <= q < |c.insns| && c.insns[q].EventCall? ==>
          q + 1 < |c.insns| && c.insns[q + 1] == Monitor(c.insns[q].kind))
    && (forall q, j :: 0 <= q < |c.insns| && c.insns[q].Plain? && 0 <= j < |c.insns[q].targets| ==>
          NotInside(c, c.insns[q].targets[j]))
    && (forall i :: 0 <= i < |c.table| ==>
          NotInside(c, c.table[i].handler) && NotInside(c, c.table[i].start) && NotInside(c, c.table[i].end))
    && NotInside(c, 0)
  }

  predicate NotInside(c: Code, p: nat) {
    p < |c.insns| ==> !c.insns[p].Monitor?
  }

  lemma {:induction false} NewPosMonotone(insns: seq<Insn>, p: nat, q: nat)
    requires p <= q <= |insns|
    ensures NewPos(insns, q) >= NewPos(insns, p) + (q - p)
    ensures p < q ==> NewPos(insns, q) >= NewPos(insns, p) + (if insns[p].Monitor? then 2 else 1)
    ensures q == p + 1 ==> NewPos(insns, q) == NewPos(insns, p) + (if insns[p].Monitor? then 2 else 1)
  {
    if p > 0 {
      NewPosMonotone(insns[1..], p - 1, q - 1);
    } else if q > 0 {
      NewPosMonotone(insns[1..], 0, q - 1);
    }
  }

  lemma {:induction false} OrigStep(h: string, all: seq<Event>, es: seq<Event>)
    requires es != []
    ensures !es[0].IsInsn() ==> ResolveInsns(h, all, es) == ResolveInsns(h, all, es[1..])
    ensures es[0].IsInsn() ==>
              |ResolveInsns(h, all, es)| > 0 && ResolveInsns(h, all, es)[0] == ResolveInsn(h, all, es[0]) &&
              ResolveInsns(h, all, es)[1..] == ResolveInsns(h, all, es[1..])
  {}

  lemma {:induction false} LabelsMove(h: string, all: seq<Event>, es: seq<Event>, l: Label)
    ensures LabelPos(InstrumentEvents(h, es), l) == NewPos(ResolveInsns(h, all, es), LabelPos(es, l))
  {
    if es == [] {
    } else {
      LabelStep(h, all, es, l);
      LabelsMove(h, all, es[1..], l);
      OrigStep(h, all, es);
    }
  }

  /** `instr` holds, from the new position of `p` on, what the `p`-th instruction of `orig` turned into. */
  predicate Moved(orig: seq<Insn>, instr: seq<Insn>, p: nat)
    requires p <= |orig|
  {
    var q := NewPos(orig, p);
    && q <= |instr| && OldPos(instr, q) == p
    && (p == |orig| ==> q == |instr|)
    && (p < |orig| && orig[p].Monitor? ==>
          q + 1 < |instr| && instr[q] == EventCall(orig[p].kind) && instr[q + 1] == orig[p])
    && (p < |orig| && orig[p].Plain? ==> q < |instr| && instr[q].Plain? && instr[q].op == orig[p].op)
    && (p < |orig| ==> !orig[p].EventCall?)
  }

  lemma {:induction false} MovedEnd()
    ensures Moved([], [], 0)
  {}

  lemma {:induction false} MovedHead(o: Insn, a: seq<Insn>, orig: seq<Insn>, instr: seq<Insn>)
    requires o.Monitor? ==> a == [EventCall(o.kind), o]
    requires o.Plain? ==> |a| == 1 && a[0].Plain? && a[0].op == o.op
    requires !o.EventCall?
    ensures Moved([o] + orig, a + instr, 0)
  {}

  lemma {:induction false} EmittedFor(h: string, all: seq<Event>, all': seq<Event>, e: Event)
    requires e.IsInsn() && !IsHandlerCall(h, e)
    ensures var o, a := ResolveInsn(h, all, e), Inserted(h, all', e);
            && !o.EventCall?
            && (o.Monitor? ==> a == [EventCall(o.kind), o])
            && (o.Plain? ==> |a| == 1 && a[0].Plain? && a[0].op == o.op)
  {}

  lemma {:induction false} MovedStep(o: Insn, a: seq<Insn>, orig: seq<Insn>, instr: seq<Insn>, p: nat)
    requires p <= |orig| && Moved(orig, instr, p)
    requires o.Monitor? ==> a == [EventCall(o.kind), o]
    requires o.Plain? ==> |a| == 1 && a[0].Plain?
    requires !o.EventCall?
    ensures Moved([o] + orig, a + instr, p + 1)
  {
    assert ([o] + orig)[1..] == orig;
    OldPosConcat(a, instr, NewPos(orig, p));
    SmallOldPos(a);
  }

  /** Every original instruction is found at its new position, behind its event call if it is a monitor instruction. */
  lemma {:induction false} InsnsMove(h: string, all: seq<Event>, all': seq<Event>, es: seq<Event>, p: nat)
    requires NoHandlerCalls(h, es) && p <= |ResolveInsns(h, all, es)|
    ensures Moved(ResolveInsns(h, all, es), ResolveInsns(h, all', InstrumentEvents(h, es)), p)
  {
    hide HandlerName, Moved;
    if es == [] {
      MovedEnd();
    } else {
      var e := es[0];
      assert e in es;
      InsnsStep(h, all', es);
      OrigStep(h, all, es);
      var a := Inserted(h, all', e);
      var orig := ResolveInsns(h, all, es[1..]);
      var rest := ResolveInsns(h, all', InstrumentEvents(h, es[1..]));
      if !e.IsInsn() {
        InsnsMove(h, all, all', es[1..], p);
        assert a + rest == rest;
      } else {
        var o := ResolveInsn(h, all, e);
        assert ResolveInsns(h, all, es) == [o] + orig;
        EmittedFor(h, all, all', e);
        if p > 0 {
          InsnsMove(h, all, all', es[1..], p - 1);
          MovedStep(o, a, orig, rest, p - 1);
        } else {
          MovedHead(o, a, orig, rest);
        }
      }
    }
  }

  /** Instrumented code consists of plain instructions and call/monitor pairs. */
  predicate Paired(insns: seq<Insn>)
    decreases |insns|
  {
    insns == [] ||
    (insns[0].Plain? && Paired(insns[1..])) ||
    (insns[0].EventCall? && |insns| >= 2 && insns[1] == Monitor(insns[0].kind) && Paired(insns[2..]))
  }

  lemma {:induction false} NothingIsPaired(h: string, all: seq<Event>)
    ensures Paired(ResolveInsns(h, all, InstrumentEvents(h, [])))
  {}

  lemma {:induction false} InstrumentedIsPaired(h: string, all: seq<Event>, es: seq<Event>)
    requires NoHandlerCalls(h, es)
    ensures Paired(ResolveInsns(h, all, InstrumentEvents(h, es)))
  {
    hide InstrumentEvents, ResolveInsns, HandlerCall;
    if es == [] {
      NothingIsPaired(h, all);
    } else {
      assert es[0] in es;
      InstrumentedIsPaired(h, all, es[1..]);
      InsnsStep(h, all, es);
      var s := ResolveInsns(h, all, InstrumentEvents(h, es));
      var rest := ResolveInsns(h, all, InstrumentEvents(h, es[1..]));
      var a := Inserted(h, all, es[0]);
      if |a| == 2 {
        assert s[2..] == rest && s[0] == a[0] && s[1] == a[1];
      } else if |a| == 1 {
        assert s[1..] == rest && s[0] == a[0] && a[0].Plain?;
      } else {
        assert s == rest;
      }
    }
  }

  lemma {:induction false} PairedAt(insns: seq<Insn>, q: nat)
    requires Paired(insns) && q < |insns|
    ensures insns[q].Monitor? ==> q > 0 && insns[q - 1] == EventCall(insns[q].kind)
    ensures insns[q].EventCall? ==> q + 1 < |insns| && insns[q + 1] == Monitor(insns[q].kind)
    decreases |insns|
  {
    if insns[0].Plain? {
      if q > 0 { PairedAt(insns[1..], q - 1); }
    } else {
      if q > 1 { PairedAt(insns[2..], q - 2); }
    }
  }

  lemma {:induction false} LabelNotInside(h: string, all: seq<Event>, es: seq<Event>, l: Label)
    requires NoHandlerCalls(h, es)
    ensures var c := ResolveInsns(h, all, InstrumentEvents(h, es)); var q := LabelPos(InstrumentEvents(h, es), l);
            q <= |c| && (q < |c| ==> !c[q].Monitor?)
  {
    LabelPosInRange(h, all, es, l);
    LabelsMove(h, all, es, l);
    InsnsMove(h, all, all, es, LabelPos(es, l));
  }

  lemma {:induction false} ResolvedTargets(h: string, all: seq<Event>, es: seq<Event>, q: nat, j: nat)
    requires q < |ResolveInsns(h, all, es)|
    requires ResolveInsns(h, all, es)[q].Plain? && j < |ResolveInsns(h, all, es)[q].targets|
    ensures exists l :: ResolveInsns(h, all, es)[q].targets[j] == LabelPos(all, l)
  {
    if es[0].IsInsn() && q == 0 {
      var i := ResolveInsn(h, all, es[0]);
      assert i.targets[j] == LabelPos(all, es[0].labels[j]);
    } else {
      ResolvedTargets(h, all, es[1..], if es[0].IsInsn() then q - 1 else q, j);
    }
  }

  lemma {:induction false} ResolvedRanges(all: seq<Event>, es: seq<Event>, i: nat)
    requires i < |ResolveTable(all, es)|
    ensures exists s, e, c: Label :: var r := ResolveTable(all, es)[i];
              r.start == LabelPos(all, s) && r.end == LabelPos(all, e) && r.handler == LabelPos(all, c)
  {
    var head := ResolveRange(all, es[0]);
    if i < |head| {
      assert ResolveTable(all, es)[i].start == LabelPos(all, es[0].start);
      assert ResolveTable(all, es)[i].end == LabelPos(all, es[0].end);
      assert ResolveTable(all, es)[i].handler == LabelPos(all, es[0].handler);
    } else {
      ResolvedRanges(all, es[1..], i - |head|);
      assert ResolveTable(all, es)[i] == ResolveTable(all, es[1..])[i - |head|];
    }
  }

  lemma {:induction false} InstrumentedIsGuarded(h: string, es: seq<Event>)
    requires NoHandlerCalls(h, es)
    ensures Guarded(Resolve(h, InstrumentEvents(h, es)))
  {
    var all := InstrumentEvents(h, es);
    var c := Resolve(h, all);
    InstrumentedIsPaired(h, all, es);
    forall q | 0 <= q < |c.insns| && c.insns[q].Monitor?
      ensures q > 0 && c.insns[q - 1] == EventCall(c.insns[q].kind)
    {
      PairedAt(c.insns, q);
    }
    forall q | 0 <= q < |c.insns| && c.insns[q].EventCall?
      ensures q + 1 < |c.insns| && c.insns[q + 1] == Monitor(c.insns[q].kind)
    {
      PairedAt(c.insns, q);
    }
    assert NotInside(c, 0) by { if c.insns != [] { PairedAt(c.insns, 0); } }
    forall q, j | 0 <= q < |c.insns| && c.insns[q].Plain? && 0 <= j < |c.insns[q].targets|
      ensures NotInside(c, c.insns[q].targets[j])
    {
      ResolvedTargets(h, all, all, q, j);
      var l :| c.insns[q].targets[j] == LabelPos(all, l);
      LabelNotInside(h, all, es, l);
    }
    forall i | 0 <= i < |c.table|
      ensures NotInside(c, c.table[i].handler) && NotInside(c, c.table[i].start) && NotInside(c, c.table[i].end)
    {
      ResolvedRanges(all, all, i);
      var s, e, d: Label :| c.table[i].start == LabelPos(all, s) && c.table[i].end == LabelPos(all, e)
                            && c.table[i].handler == LabelPos(all, d);
      LabelNotInside(h, all, es, s);
      LabelNotInside(h, all, es, e);
      LabelNotInside(h, all, es, d);
    }
  }

  lemma {:induction false} SameCoverage(a: seq<Range>, p: nat, b: seq<Range>, q: nat)
    requires |a| == |b| && forall i :: 0 <= i < |a| ==> (a[i].Covers(p) <==> b[i].Covers(q))
    ensures FirstCovering(a, p) == FirstCovering(b, q)
  {
    if a == [] {
    } else {
      forall i | 0 <= i < |a[1..]| ensures a[1..][i].Covers(p) <==> b[1..][i].Covers(q) {
        assert a[1..][i] == a[i + 1] && b[1..][i] == b[i + 1];
      }
      SameCoverage(a[1..], p, b[1..], q);
    }
  }

  lemma {:induction false} RangeCoverage(insns: seq<Insn>, r: Range, p: nat, q: nat)
    requires p < |insns| && r.start <= |insns| && r.end <= |insns|
    requires NewPos(insns, p) <= q < NewPos(insns, p + 1)
    ensures Range(NewPos(insns, r.start), NewPos(insns, r.end), r.handler, r.catchType).Covers(q) <==> r.Covers(p)
  {
    if r.start <= p { NewPosMonotone(insns, r.start, p); } else { NewPosMonotone(insns, p + 1, r.start); }
    if r.end <= p { NewPosMonotone(insns, r.end, p); } else { NewPosMonotone(insns, p + 1, r.end); }
  }

  /** For every original position `p`: the call in front of it (if any) and the instruction itself have the same first
      covering table entry as the original instruction, and that entry's handler moved with the position map. */
  lemma {:induction false} FirstHandlerKept(h: string, es: seq<Event>, p: nat, q: nat)
    requires NoHandlerCalls(h, es) && p < |Resolve(h, es).insns|
    requires NewPos(Resolve(h, es).insns, p) <= q < NewPos(Resolve(h, es).insns, p + 1)
    ensures var t, t' := Resolve(h, es).table, Resolve(h, InstrumentEvents(h, es)).table;
            && |t'| == |t|
            && FirstCovering(t', q) == FirstCovering(t, p)
            && forall i :: 0 <= i < |t| ==>
                 && t'[i].handler == NewPos(Resolve(h, es).insns, t[i].handler)
                 && t'[i].catchType == t[i].catchType
  {
    var orig, instr := Resolve(h, es), Resolve(h, InstrumentEvents(h, es));
    TableSize(h, es, es);
    forall i | 0 <= i < |orig.table|
      ensures orig.table[i].Covers(p) <==> instr.table[i].Covers(q)
      ensures instr.table[i].handler == NewPos(orig.insns, orig.table[i].handler)
      ensures instr.table[i].catchType == orig.table[i].catchType
    {
      TableMoves(h, es, es, i);
      RangeCoverage(orig.insns, orig.table[i], p, q);
    }
    SameCoverage(orig.table, p, instr.table, q);
  }

  lemma {:induction false} TableMoves(h: string, all: seq<Event>, es: seq<Event>, i: nat)
    requires i < |ResolveTable(all, es)|
    ensures var t, t' := ResolveTable(all, es), ResolveTable(InstrumentEvents(h, all), InstrumentEvents(h, es));
            var insns := ResolveInsns(h, all, all);
            |t'| == |t| && t[i].start <= |insns| && t[i].end <= |insns| &&
            t'[i] == Range(NewPos(insns, t[i].start), NewPos(insns, t[i].end), NewPos(insns, t[i].handler),
                t[i].catchType)
  {
    TableStep(h, InstrumentEvents(h, all), es);
    TableSize(h, all, es[1..]);
    var head := ResolveRange(all, es[0]);
    if i < |head| {
      LabelsMove(h, all, all, es[0].start);
      LabelsMove(h, all, all, es[0].end);
      LabelsMove(h, all, all, es[0].handler);
      LabelPosInRange(h, all, all, es[0].start);
      LabelPosInRange(h, all, all, es[0].end);
    } else {
      TableMoves(h, all, es[1..], i - |head|);
    }
  }

  lemma {:induction false} TableSize(h: string, all: seq<Event>, es: seq<Event>)
    ensures |ResolveTable(InstrumentEvents(h, all), InstrumentEvents(h, es))| == |ResolveTable(all, es)|
  {
    if es == [] {
    } else {
      TableStep(h, InstrumentEvents(h, all), es);
      TableSize(h, all, es[1..]);
    }
  }
}

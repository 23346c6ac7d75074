/**
  The code transformation of `MethodInstrumenter` as a function on event streams, and what it does to
  positions: branch targets, exception ranges, handlers and stack maps.
 */
module InsertedCalls {
  import opened Bytecode

  function InstrumentEvent(h: string, e: Event): seq<Event> {
    if e == VisitInsn(MONITORENTER) then [HandlerCall(h, Enter), e]
    else if e == VisitInsn(MONITOREXIT) then [HandlerCall(h, Exit), e]
    else [e]
  }

  function InstrumentEvents(h: string, es: seq<Event>): seq<Event> {
    if es == [] then [] else InstrumentEvent(h, es[0]) + InstrumentEvents(h, es[1..])
  }

  lemma {:induction false} InstrumentConcat(h: string, a: seq<Event>, b: seq<Event>)
    ensures InstrumentEvents(h, a + b) == InstrumentEvents(h, a) + InstrumentEvents(h, b)
  {
    hide InstrumentEvent;
    if a == [] {
      assert a + b == b;
    } else {
      assert (a + b)[1..] == a[1..] + b;
      InstrumentConcat(h, a[1..], b);
      var first, rest := InstrumentEvent(h, a[0]), InstrumentEvents(h, a[1..]);
      assert (first + rest) + InstrumentEvents(h, b) == first + (rest + InstrumentEvents(h, b));
    }
  }

  lemma {:induction false} Regroup(a: seq<Event>, b: seq<Event>, c: seq<Event>, d: seq<Event>)
    ensures a + ((b + c) + d) == a + b + c + d
  {}

  /** What is inserted, written out: in front of the event at any place of a method, a call of the handler's
      `phasicj$agent$rt$monitorEnter` if it is opcode 194, of its `phasicj$agent$rt$monitorExit` if it is opcode 195,
      and otherwise nothing; the event itself stays. */
  lemma {:induction false} InsertedCallIs(h: string, es: seq<Event>, i: nat)
    requires i < |es|
    ensures InstrumentEvents(h, es) == InstrumentEvents(h, es[..i])
        + (if es[i] == VisitInsn(194) then [VisitMethodInsn(184, h, "phasicj$agent$rt$monitorEnter", "()V", false)]
           else if es[i] == VisitInsn(195) then [VisitMethodInsn(184, h, "phasicj$agent$rt$monitorExit", "()V", false)]
           else [])
        + [es[i]] + InstrumentEvents(h, es[i + 1..])
  {
    var a, b := es[..i], es[i + 1..];
    assert es == a + ([es[i]] + b) && ([es[i]] + b)[1..] == b;
    InstrumentConcat(h, a, [es[i]] + b);
    var call :=
      if es[i] == VisitInsn(194) then [VisitMethodInsn(184, h, "phasicj$agent$rt$monitorEnter", "()V", false)]
      else if es[i] == VisitInsn(195) then [VisitMethodInsn(184, h, "phasicj$agent$rt$monitorExit", "()V", false)]
      else [];
    assert InstrumentEvent(h, es[i]) == call + [es[i]];
    Regroup(InstrumentEvents(h, a), call, [es[i]], InstrumentEvents(h, b));
  }

  predicate NoHandlerCalls(h: string, es: seq<Event>) {
    forall e :: e in es ==> !IsHandlerCall(h, e)
  }

  // ---------------------------------------------------------------- erasure undoes instrumentation

  lemma {:induction false} LabelPosInRange(h: string, all: seq<Event>, es: seq<Event>, l: Label)
    ensures LabelPos(es, l) <= |ResolveInsns(h, all, es)|
  {
    if es == [] {
    } else {
      LabelPosInRange(h, all, es[1..], l);
    }
  }

  /** What one callback turns into, as instructions. */
  function Inserted(h: string, all: seq<Event>, e: Event): (r: seq<Insn>)
    ensures |r| <= 2
  {
    if e == VisitInsn(MONITORENTER) then [EventCall(Enter), Monitor(Enter)]
    else if e == VisitInsn(MONITOREXIT) then [EventCall(Exit), Monitor(Exit)]
    else if e.IsInsn() then [ResolveInsn(h, all, e)]
    else []
  }

  lemma {:induction false} CallResolved(h: string, all: seq<Event>, k: Kind)
    ensures HandlerCall(h, k).IsInsn() && ResolveInsn(h, all, HandlerCall(h, k)) == EventCall(k)
  {
    assert |ENTER_NAME| == 29 && |EXIT_NAME| == 28;
  }

  lemma {:induction false} MonitorResolved(h: string, all: seq<Event>, k: Kind)
    ensures ResolveInsn(h, all, VisitInsn(if k.Enter? then MONITORENTER else MONITOREXIT)) == Monitor(k)
  {}

  lemma {:induction false} InsnsStep(h: string, all: seq<Event>, es: seq<Event>)
    requires es != []
    ensures ResolveInsns(h, all, InstrumentEvents(h, es)) ==
            Inserted(h, all, es[0]) + ResolveInsns(h, all, InstrumentEvents(h, es[1..]))
  {
    hide HandlerCall, ResolveInsn;
    var e := es[0];
    var rest := InstrumentEvents(h, es[1..]);
    var s := InstrumentEvents(h, es);
    if e == VisitInsn(MONITORENTER) || e == VisitInsn(MONITOREXIT) {
      var k := if e.opcode == MONITORENTER then Enter else Exit;
      CallResolved(h, all, k);
      MonitorResolved(h, all, k);
      assert s == [HandlerCall(h, k)] + ([e] + rest);
      assert s[1..] == [e] + rest && s[1..][1..] == rest;
    } else {
      assert s[1..] == rest;
    }
  }

  lemma {:induction false} LabelStep(h: string, all: seq<Event>, es: seq<Event>, l: Label)
    requires es != []
    ensures LabelPos(InstrumentEvents(h, es), l) ==
            if es[0] == VisitLabel(l) then 0
            else |Inserted(h, all, es[0])| + LabelPos(InstrumentEvents(h, es[1..]), l)
  {
    var e := es[0];
    var rest := InstrumentEvents(h, es[1..]);
    var s := InstrumentEvents(h, es);
    if e == VisitInsn(MONITORENTER) || e == VisitInsn(MONITOREXIT) {
      assert s[1..] == [e] + rest && s[1..][1..] == rest;
      assert LabelPos(s[1..], l) == 1 + LabelPos(s[1..][1..], l);
    } else {
      assert s[1..] == rest;
    }
  }

  lemma {:induction false} NothingInserted(h: string, all: seq<Event>, l: Label)
    ensures OldPos(ResolveInsns(h, all, InstrumentEvents(h, [])), LabelPos(InstrumentEvents(h, []), l))
        == LabelPos([], l)
  {}

  lemma {:induction false} InsertedOldPos(h: string, all: seq<Event>, e: Event)
    requires !IsHandlerCall(h, e)
    ensures var a := Inserted(h, all, e); OldPos(a, |a|) == if e.IsInsn() then 1 else 0
  {
    SmallOldPos(Inserted(h, all, e));
  }

  /** A label that stood before the p-th instruction now stands where erasing the calls gives back p. */
  lemma {:induction false} LabelPosErased(h: string, all: seq<Event>, es: seq<Event>, l: Label)
    requires NoHandlerCalls(h, es)
    ensures OldPos(ResolveInsns(h, all, InstrumentEvents(h, es)), LabelPos(InstrumentEvents(h, es), l))
        == LabelPos(es, l)
  {
    hide InstrumentEvents, ResolveInsns, Inserted, HandlerCall;
    if es == [] {
      NothingInserted(h, all, l);
    } else {
      InsnsStep(h, all, es);
      LabelStep(h, all, es, l);
      if es[0] != VisitLabel(l) {
        LabelPosErased(h, all, es[1..], l);
        var a := Inserted(h, all, es[0]);
        var rest := InstrumentEvents(h, es[1..]);
        LabelPosInRange(h, all, rest, l);
        OldPosConcat(a, ResolveInsns(h, all, rest), LabelPos(rest, l));
        assert es[0] in es;
        InsertedOldPos(h, all, es[0]);
      }
    }
  }

  lemma {:induction false} SmallOldPos(a: seq<Insn>)
    requires |a| <= 2
    ensures a == [] ==> OldPos(a, |a|) == 0
    ensures |a| == 1 ==> OldPos(a, 1) == if a[0].EventCall? then 0 else 1
    ensures |a| == 2 && a[0].EventCall? && !a[1].EventCall? ==> OldPos(a, 2) == 1
  {
    if |a| == 2 { assert OldPos(a, 2) == (if a[0].EventCall? then 0 else 1) + OldPos(a[1..], 1); }
  }

  lemma {:induction false} EraseInsnsConcat(all: seq<Insn>, a: seq<Insn>, b: seq<Insn>)
    ensures EraseInsns(all, a + b) == EraseInsns(all, a) + EraseInsns(all, b)
  {
    hide EraseInsn;
    if a == [] {
      assert a + b == b;
    } else {
      assert (a + b)[1..] == a[1..] + b;
      EraseInsnsConcat(all, a[1..], b);
      var first := if a[0].EventCall? then [] else [EraseInsn(all, a[0])];
      var rest := EraseInsns(all, a[1..]);
      assert (first + rest) + EraseInsns(all, b) == first + (rest + EraseInsns(all, b));
    }
  }

  lemma {:induction false} InsnsErased(h: string, es: seq<Event>, tail: seq<Event>)
    requires NoHandlerCalls(h, es) && NoHandlerCalls(h, tail)
    ensures var all' := InstrumentEvents(h, es);
            EraseInsns(ResolveInsns(h, all', all'), ResolveInsns(h, all', InstrumentEvents(h, tail)))
              == ResolveInsns(h, es, tail)
  {
    var all' := InstrumentEvents(h, es);
    var code' := ResolveInsns(h, all', all');
    if tail == [] {
    } else {
      InsnsStep(h, all', tail);
      InsnsErased(h, es, tail[1..]);
      var e := tail[0];
      assert e in tail;
      var a := Inserted(h, all', e);
      EraseInsnsConcat(code', a, ResolveInsns(h, all', InstrumentEvents(h, tail[1..])));
      assert EraseInsns(code', a) == if e.IsInsn() then [ResolveInsn(h, es, e)] else [] by {
        if e.IsInsn() {
          OneInsnErased(h, es, e);
          EraseSmall(code', a);
        }
      }
    }
  }

  lemma {:induction false} EraseSmall(all: seq<Insn>, a: seq<Insn>)
    ensures |a| == 1 && !a[0].EventCall? ==> EraseInsns(all, a) == [EraseInsn(all, a[0])]
    ensures |a| == 2 && a[0].EventCall? && !a[1].EventCall? ==> EraseInsns(all, a) == [EraseInsn(all, a[1])]
  {
    if a == [] {
    } else {
      EraseSmall(all, a[1..]);
      assert a == [a[0]] + a[1..];
    }
  }

  lemma {:induction false} OneInsnErased(h: string, es: seq<Event>, e: Event)
    requires NoHandlerCalls(h, es) && e.IsInsn() && !IsHandlerCall(h, e)
    ensures var all' := InstrumentEvents(h, es);
            EraseInsn(ResolveInsns(h, all', all'), ResolveInsn(h, all', e)) == ResolveInsn(h, es, e)
  {
    var all' := InstrumentEvents(h, es);
    var code' := ResolveInsns(h, all', all');
    if e.VisitOther? {
      forall i | 0 <= i < |e.labels|
        ensures OldPositions(code', LabelPositions(all', e.labels))[i] == LabelPositions(es, e.labels)[i]
      {
        LabelPosErased(h, all', es, e.labels[i]);
      }
    }
  }

  lemma {:induction false} TableErased(h: string, es: seq<Event>, tail: seq<Event>)
    requires NoHandlerCalls(h, es)
    ensures var all' := InstrumentEvents(h, es);
            EraseTable(ResolveInsns(h, all', all'), ResolveTable(all', InstrumentEvents(h, tail)))
                == ResolveTable(es, tail)
  {
    var all' := InstrumentEvents(h, es);
    if tail == [] {
    } else {
      var e := tail[0];
      TableErased(h, es, tail[1..]);
      TableStep(h, all', tail);
      if e.VisitTryCatch? {
        LabelPosErased(h, all', es, e.start);
        LabelPosErased(h, all', es, e.end);
        LabelPosErased(h, all', es, e.handler);
      }
    }
  }

  lemma {:induction false} TableStep(h: string, all: seq<Event>, es: seq<Event>)
    requires es != []
    ensures ResolveTable(all, InstrumentEvents(h, es)) ==
            ResolveRange(all, es[0]) + ResolveTable(all, InstrumentEvents(h, es[1..]))
    ensures ResolveMaxs(InstrumentEvents(h, es)) ==
            (if es[0].VisitMaxs? then [(es[0].maxStack, es[0].maxLocals)] else [])
            + ResolveMaxs(InstrumentEvents(h, es[1..]))
  {
    var s := InstrumentEvents(h, es);
    var rest := InstrumentEvents(h, es[1..]);
    if es[0] == VisitInsn(MONITORENTER) || es[0] == VisitInsn(MONITOREXIT) {
      assert s[1..][1..] == rest;
    } else {
      assert s[1..] == rest;
    }
  }

  lemma {:induction false} MaxsKept(h: string, es: seq<Event>)
    ensures ResolveMaxs(InstrumentEvents(h, es)) == ResolveMaxs(es)
  {
    if es == [] {
    } else {
      MaxsKept(h, es[1..]);
      TableStep(h, es, es);
    }
  }

  /** A stack map of the instrumented method erases to the one of the original. */
  lemma {:induction false} OneFrameErased(h: string, orig: seq<Event>, at: nat, e: Event)
    requires NoHandlerCalls(h, orig)
    ensures var all := InstrumentEvents(h, orig);
            var code := ResolveInsns(h, all, all);
            EraseFrames(code, ResolveFrame(all, at, e)) == ResolveFrame(orig, OldPos(code, at), e)
  {
    var all := InstrumentEvents(h, orig);
    var code := ResolveInsns(h, all, all);
    if e.VisitFrame? {
      forall i | 0 <= i < |e.news|
        ensures OldPositions(code, LabelPositions(all, e.news))[i] == LabelPositions(orig, e.news)[i]
      {
        LabelPosErased(h, all, orig, e.news[i]);
      }
      assert OldPositions(code, LabelPositions(all, e.news)) == LabelPositions(orig, e.news);
    }
  }

  /** The tail of the code, and where it is in the original. */
  lemma {:induction false} InsnsHead(h: string, all: seq<Event>, code: seq<Insn>, at: nat, es: seq<Event>, n: nat)
    requires es != [] && NoHandlerCalls(h, es) && n == |Inserted(h, all, es[0])|
    requires at <= |code| && code[at..] == ResolveInsns(h, all, InstrumentEvents(h, es))
    ensures at + n <= |code| && code[at + n..] == ResolveInsns(h, all, InstrumentEvents(h, es[1..]))
    ensures OldPos(code, at + n) == OldPos(code, at) + (if es[0].IsInsn() then 1 else 0)
  {
    hide InstrumentEvents, ResolveInsns;
    InsnsStep(h, all, es);
    assert es[0] in es;
    SplitTail(code, at, Inserted(h, all, es[0]), ResolveInsns(h, all, InstrumentEvents(h, es[1..])));
  }

  lemma {:induction false} NoFrames(h: string, orig: seq<Event>, all: seq<Event>, code: seq<Insn>, at: nat)
    ensures EraseFrames(code, ResolveFrames(all, at, InstrumentEvents(h, [])))
        == ResolveFrames(orig, OldPos(code, at), [])
  {}

  lemma {:induction false} InsertedSize(h: string, all: seq<Event>, e: Event)
    ensures |Inserted(h, all, e)| ==
            if e == VisitInsn(MONITORENTER) || e == VisitInsn(MONITOREXIT) then 2 else if e.IsInsn() then 1 else 0
  {}

  lemma {:induction false} FramesErased(h: string, orig: seq<Event>, at: nat, es: seq<Event>)
    requires NoHandlerCalls(h, orig) && NoHandlerCalls(h, es)
    requires var all := InstrumentEvents(h, orig);
             var code := ResolveInsns(h, all, all);
             at <= |code| && code[at..] == ResolveInsns(h, all, InstrumentEvents(h, es))
    ensures var all := InstrumentEvents(h, orig);
            var code := ResolveInsns(h, all, all);
            EraseFrames(code, ResolveFrames(all, at, InstrumentEvents(h, es)))
                == ResolveFrames(orig, OldPos(code, at), es)
    decreases es
  {
    hide LabelPositions, EraseFrames, Inserted, InstrumentEvents, ResolveInsns, OldPos, ResolveFrame;
    var all := InstrumentEvents(h, orig);
    var code := ResolveInsns(h, all, all);
    if es == [] {
      NoFrames(h, orig, all, code, at);
    } else {
      var n := |Inserted(h, all, es[0])|;
      InsertedSize(h, all, es[0]);
      InsnsHead(h, all, code, at, es, n);
      FramesErased(h, orig, at + n, es[1..]);
      FramesStep(h, all, at, es, n);
      OneFrameErased(h, orig, at, es[0]);
      EraseFramesConcat(code, ResolveFrame(all, at, es[0]), ResolveFrames(all, at + n, InstrumentEvents(h, es[1..])));
    }
  }

  lemma {:induction false} SplitTail(code: seq<Insn>, at: nat, a: seq<Insn>, b: seq<Insn>)
    requires at <= |code| && code[at..] == a + b && |a| <= 2
    ensures at + |a| <= |code| && code[at + |a|..] == b
    ensures a == [] ==> OldPos(code, at + |a|) == OldPos(code, at)
    ensures |a| == 1 && !a[0].EventCall? ==> OldPos(code, at + |a|) == OldPos(code, at) + 1
    ensures |a| == 2 && a[0].EventCall? && !a[1].EventCall? ==> OldPos(code, at + |a|) == OldPos(code, at) + 1
  {
    assert forall i :: 0 <= i < |a| ==> code[at..][i] == a[i] && code[at + i] == a[i];
    assert |code[at..]| == |a| + |b|;
    assert code[at + |a|..] == code[at..][|a|..];
    if |a| >= 1 { OldPosMonotone(code, at, at + 1); }
    if |a| == 2 { OldPosMonotone(code, at + 1, at + 2); }
  }

  lemma {:induction false} EraseFramesConcat(all: seq<Insn>, a: seq<StackMap>, b: seq<StackMap>)
    ensures EraseFrames(all, a + b) == EraseFrames(all, a) + EraseFrames(all, b)
  {}

  lemma {:induction false} FramesStep(h: string, all: seq<Event>, at: nat, es: seq<Event>, n: nat)
    requires es != []
    requires n == if es[0] == VisitInsn(MONITORENTER)
        || es[0] == VisitInsn(MONITOREXIT) then 2 else if es[0].IsInsn() then 1 else 0
    ensures ResolveFrames(all, at, InstrumentEvents(h, es)) ==
            ResolveFrame(all, at, es[0]) + ResolveFrames(all, at + n, InstrumentEvents(h, es[1..]))
  {
    var s := InstrumentEvents(h, es);
    var rest := InstrumentEvents(h, es[1..]);
    if es[0] == VisitInsn(MONITORENTER) || es[0] == VisitInsn(MONITOREXIT) {
      assert s[1..][1..] == rest;
      assert ResolveFrames(all, at, s) == ResolveFrames(all, at + 1, s[1..]);
    } else {
      assert s[1..] == rest;
    }
  }

  /** Erasing the inserted calls from the instrumented method gives back the original method: the same
      instructions, branch targets, exception table, stack maps and limits. */
  lemma {:induction false} ErasureUndoesInstrumentation(h: string, es: seq<Event>)
    requires NoHandlerCalls(h, es)
    ensures Erase(Resolve(h, InstrumentEvents(h, es))) == Resolve(h, es)
  {
    var all' := InstrumentEvents(h, es);
    InsnsErased(h, es, es);
    TableErased(h, es, es);
    MaxsKept(h, es);
    FramesErased(h, es, 0, es);
  }
}

/**
  Any set of methods, any of them instrumented: the instrumented program and the original have the same runs.
  Methods whose classes are skipped or could not be instrumented stay as they are.
 */
module WholeProgram {
  import opened Wrappers
  import opened Bytecode
  import opened InsertedCalls
  import Placement
  import opened JavaVm
  import opened Projection
  import opened InstrumentedVm
  import opened Simulation

  type Methods = map<MethodId, seq<Event>>

  function OriginalProgram(h: string, ms: Methods): (r: Program)
    ensures r.Keys == ms.Keys && forall m :: m in ms ==> r[m] == Resolve(h, ms[m])
  {
    map m | m in ms :: Resolve(h, ms[m])
  }

  function InstrumentedProgram(h: string, ms: Methods, on: set<MethodId>): (r: Program)
    ensures r.Keys == ms.Keys
    ensures forall m :: m in ms ==> r[m] == Resolve(h, if m in on then InstrumentEvents(h, ms[m]) else ms[m])
  {
    map m | m in ms :: Resolve(h, if m in on then InstrumentEvents(h, ms[m]) else ms[m])
  }

  predicate NoEventCalls(insns: seq<Insn>) {
    forall q :: 0 <= q < |insns| ==> !insns[q].EventCall?
  }

  /** The application's methods: none calls the handler by itself, and all labels lead to instructions. */
  predicate MethodsOk(h: string, ms: Methods) {
    && (forall m :: m in ms ==> NoHandlerCalls(h, ms[m]))
    && ProgramOk(OriginalProgram(h, ms))
  }

  // ---------------------------------------------------------------- resolved code stays in range

  predicate InRange(c: Code) {
    && (forall q, j :: 0 <= q < |c.insns| && c.insns[q].Plain? && 0 <= j < |c.insns[q].targets| ==>
          c.insns[q].targets[j] <= |c.insns|)
    && (forall i :: 0 <= i < |c.table| ==>
          c.table[i].start <= |c.insns| && c.table[i].end <= |c.insns| && c.table[i].handler <= |c.insns|)
    && FramesInRange(c.frames, |c.insns|, |c.insns|)
  }

  predicate FrameInRange(f: StackMap, last: nat, size: nat) {
    f.at <= last && forall j :: 0 <= j < |f.news| ==> f.news[j] <= size
  }

  predicate FramesInRange(fs: seq<StackMap>, last: nat, size: nat) {
    forall i :: 0 <= i < |fs| ==> FrameInRange(fs[i], last, size)
  }

  lemma {:induction false} ResolvedFrames(h: string, all: seq<Event>, at: nat, es: seq<Event>)
    ensures FramesInRange(ResolveFrames(all, at, es), at + |ResolveInsns(h, all, es)|, |ResolveInsns(h, all, all)|)
    decreases es
  {
    if es == [] {
    } else {
      ResolvedFrames(h, all, if es[0].IsInsn() then at + 1 else at, es[1..]);
      if es[0].VisitFrame? {
        forall j | 0 <= j < |es[0].news| ensures LabelPositions(all, es[0].news)[j] <= |ResolveInsns(h, all, all)| {
          LabelPosInRange(h, all, all, es[0].news[j]);
        }
      }
    }
  }

  lemma {:induction false} ResolvedInRange(h: string, es: seq<Event>)
    ensures InRange(Resolve(h, es))
  {
    var c := Resolve(h, es);
    forall q, j | 0 <= q < |c.insns| && c.insns[q].Plain? && 0 <= j < |c.insns[q].targets|
      ensures c.insns[q].targets[j] <= |c.insns|
    {
      Placement.ResolvedTargets(h, es, es, q, j);
      var l :| c.insns[q].targets[j] == LabelPos(es, l);
      LabelPosInRange(h, es, es, l);
    }
    forall i | 0 <= i < |c.table|
      ensures c.table[i].start <= |c.insns| && c.table[i].end <= |c.insns| && c.table[i].handler <= |c.insns|
    {
      Placement.ResolvedRanges(es, es, i);
      var s, e, d: Label :| c.table[i].start == LabelPos(es, s) && c.table[i].end == LabelPos(es, e)
                            && c.table[i].handler == LabelPos(es, d);
      LabelPosInRange(h, es, es, s);
      LabelPosInRange(h, es, es, e);
      LabelPosInRange(h, es, es, d);
    }
    ResolvedFrames(h, es, 0, es);
  }

  /** A position that erasing moves inside the erased code was inside the code. */
  lemma {:induction false} OldPosReflects(insns: seq<Insn>, q: nat)
    requires q <= |insns| && OldPos(insns, q) < |EraseInsns(insns, insns)|
    ensures q < |insns|
  {
    ErasedInsnAt(insns, insns, |insns|);
  }

  lemma {:induction false} EraseReflectsOk(c: Code)
    requires InRange(c) && CodeOk(Erase(c))
    ensures CodeOk(c)
  {
    var e := Erase(c);
    forall q, j | 0 <= q < |c.insns| && c.insns[q].Plain? && 0 <= j < |c.insns[q].targets|
      ensures c.insns[q].targets[j] < |c.insns|
    {
      ErasedInsnAt(c.insns, c.insns, q);
      assert e.insns[OldPos(c.insns, q)].targets[j] == OldPos(c.insns, c.insns[q].targets[j]);
      OldPosReflects(c.insns, c.insns[q].targets[j]);
    }
    forall i | 0 <= i < |c.table|
      ensures c.table[i].handler < |c.insns|
    {
      assert e.table[i] == EraseRange(c.insns, c.table[i]);
      OldPosReflects(c.insns, c.table[i].handler);
    }
  }

  lemma {:induction false} OldPosIdentity(insns: seq<Insn>, q: nat)
    requires NoEventCalls(insns) && q <= |insns|
    ensures OldPos(insns, q) == q
  {
    if q == 0 {
    } else {
      OldPosIdentity(insns[1..], q - 1);
    }
  }

  lemma {:induction false} EraseInsnsIdentity(all: seq<Insn>, insns: seq<Insn>)
    requires NoEventCalls(all) && NoEventCalls(insns)
    requires forall q, j :: 0 <= q < |insns| && insns[q].Plain? && 0 <= j < |insns[q].targets| ==>
          insns[q].targets[j] <= |all|
    ensures EraseInsns(all, insns) == insns
  {
    if insns == [] {
    } else {
      var rest := insns[1..];
      assert forall q :: 0 <= q < |rest| ==> rest[q] == insns[q + 1];
      EraseInsnsIdentity(all, rest);
      var i := insns[0];
      if i.Plain? {
        forall j | 0 <= j < |i.targets| ensures OldPos(all, i.targets[j]) == i.targets[j] {
          OldPosIdentity(all, i.targets[j]);
        }
        assert OldPositions(all, i.targets) == i.targets;
      }
      assert EraseInsn(all, i) == i;
    }
  }

  lemma {:induction false} EraseIdentity(c: Code)
    requires InRange(c) && NoEventCalls(c.insns)
    ensures Erase(c) == c
  {
    EraseInsnsIdentity(c.insns, c.insns);
    forall i | 0 <= i < |c.table| ensures EraseRange(c.insns, c.table[i]) == c.table[i] {
      OldPosIdentity(c.insns, c.table[i].start);
      OldPosIdentity(c.insns, c.table[i].end);
      OldPosIdentity(c.insns, c.table[i].handler);
    }
    assert EraseTable(c.insns, c.table) == c.table;
    forall i | 0 <= i < |c.frames| ensures EraseFrames(c.insns, c.frames)[i] == c.frames[i] {
      OldPosIdentity(c.insns, c.frames[i].at);
      forall j | 0 <= j < |c.frames[i].news| ensures OldPos(c.insns, c.frames[i].news[j]) == c.frames[i].news[j] {
        OldPosIdentity(c.insns, c.frames[i].news[j]);
      }
      assert OldPositions(c.insns, c.frames[i].news) == c.frames[i].news;
    }
    assert EraseFrames(c.insns, c.frames) == c.frames;
  }

  lemma {:induction false} OriginalHasNoEventCalls(h: string, all: seq<Event>, es: seq<Event>)
    requires NoHandlerCalls(h, es)
    ensures NoEventCalls(ResolveInsns(h, all, es))
  {
    if es == [] {
    } else {
      assert es[0] in es;
      OriginalHasNoEventCalls(h, all, es[1..]);
    }
  }

  /** The original program is the instrumented one with the event calls erased, whichever methods were instrumented;
      and the instrumented program is well-formed because the original is. */
  lemma {:induction false} ErasedIsOriginal(h: string, ms: Methods, on: set<MethodId>)
    requires MethodsOk(h, ms)
    ensures EraseProgram(InstrumentedProgram(h, ms, on)) == OriginalProgram(h, ms)
    ensures ProgramOk(InstrumentedProgram(h, ms, on))
  {
    hide Erase, CodeOk, InstrumentEvents, ResolveTable, ResolveFrames;
    var p := InstrumentedProgram(h, ms, on);
    forall m | m in ms ensures Erase(p[m]) == OriginalProgram(h, ms)[m] && CodeOk(p[m]) {
      var es := if m in on then InstrumentEvents(h, ms[m]) else ms[m];
      ResolvedInRange(h, es);
      if m in on {
        ErasureUndoesInstrumentation(h, ms[m]);
      } else {
        OriginalHasNoEventCalls(h, ms[m], ms[m]);
        EraseIdentity(p[m]);
      }
      EraseReflectsOk(p[m]);
    }
  }

  /** Every thread is about to execute the first instruction of a method. */
  predicate Initial(ms: Methods, s: State) {
    forall t :: t in s.threads ==>
      s.threads[t].mode.Running? && |s.threads[t].frames| == 1 && s.threads[t].frames[0].mid in ms
          && s.threads[t].frames[0].pc == 0
  }

  /** Any number of threads, each about to begin a method with any arguments, over any heap, is such a state. */
  lemma {:induction false} InitialIff(ms: Methods, starts: map<Tid, (MethodId, Data)>, shared: Shared)
    ensures var threads := map t | t in starts :: Thread([Frame(starts[t].0, 0, starts[t].1)], Running);
            Initial(ms, State(threads, shared)) <==> forall t :: t in starts ==> starts[t].0 in ms
  {
    var threads := map t | t in starts :: Thread([Frame(starts[t].0, 0, starts[t].1)], Running);
    var s := State(threads, shared);
    if Initial(ms, s) {
      forall t | t in starts ensures starts[t].0 in ms {
        assert s.threads[t].frames[0].mid in ms;
      }
    }
  }

  lemma {:induction false} InitialProjects(h: string, ms: Methods, on: set<MethodId>, s: State)
    requires Initial(ms, s)
    ensures StateOk(InstrumentedProgram(h, ms, on), s) && Proj(InstrumentedProgram(h, ms, on), s) == s
  {
    hide Resolve;
    var p := InstrumentedProgram(h, ms, on);
    forall t | t in s.threads ensures ThreadOk(p, s.threads[t]) && ProjThread(p, s.threads[t]) == s.threads[t] {
      assert ProjFrames(p, s.threads[t].frames) == s.threads[t].frames;
    }
    assert ProjThreads(p, s.threads) == s.threads;
  }

  /** Both directions at once. A schedule of application steps is possible in the instrumented program, with some
      interleaving of event calls, start-up, JVM phases and worker steps, exactly when it is possible in the original
      program; and whatever the interleaving, the threads' stacks and locals, the heap, and the monitors' owners
      and counts end up the same. */
  lemma {:induction false} SameRuns(sem: Semantics, h: string, ms: Methods, on: set<MethodId>, steps: seq<(Tid, int)>,
          s: State)
    requires MethodsOk(h, ms) && Initial(ms, s)
    ensures var p := InstrumentedProgram(h, ms, on); var o := OriginalProgram(h, ms);
            && (Run(sem, o, steps, s).Some? <==>
                  exists ls :: Schedule(ls) == steps && SysRun(sem, p, ls, Boot(s)).Some?)
            && (forall ls :: Schedule(ls) == steps && SysRun(sem, p, ls, Boot(s)).Some? ==>
                  Run(sem, o, steps, s) == Some(Proj(p, SysRun(sem, p, ls, Boot(s)).value.vm)))
  {
    var p := InstrumentedProgram(h, ms, on);
    ErasedIsOriginal(h, ms, on);
    InitialProjects(h, ms, on, s);
    BootOk(p, s);
    forall ls | Schedule(ls) == steps && SysRun(sem, p, ls, Boot(s)).Some?
      ensures Run(sem, OriginalProgram(h, ms), steps, s) == Some(Proj(p, SysRun(sem, p, ls, Boot(s)).value.vm))
    {
      RunProjects(sem, p, ls, Boot(s));
    }
    if Run(sem, OriginalProgram(h, ms), steps, s).Some? {
      var ls := RunLifts(sem, p, steps, Boot(s));
    }
  }
}

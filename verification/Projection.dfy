/**
  Forgetting the event calls: every position becomes the position it had before any call was inserted.
  One step of the machine on code with event calls is, seen through this projection, the same step on the code
  without them.
 */
module Projection {
  import opened Wrappers
  import opened Bytecode
  import opened JavaVm

  function EraseProgram(prog: Program): (r: Program)
    ensures r.Keys == prog.Keys
    ensures forall m :: m in prog ==> r[m] == Erase(prog[m])
  {
    map m | m in prog :: Erase(prog[m])
  }

  function ProjFrame(prog: Program, f: Frame): Frame {
    if f.mid in prog then Frame(f.mid, OldPos(prog[f.mid].insns, f.pc), f.data) else f
  }

  function ProjFrames(prog: Program, fs: seq<Frame>): (r: seq<Frame>)
    ensures |r| == |fs| && forall i :: 0 <= i < |fs| ==> r[i] == ProjFrame(prog, fs[i])
  {
    seq(|fs|, i requires 0 <= i < |fs| => ProjFrame(prog, fs[i]))
  }

  function ProjThread(prog: Program, th: Thread): Thread {
    Thread(ProjFrames(prog, th.frames), th.mode)
  }

  function ProjThreads(prog: Program, ts: map<Tid, Thread>): (r: map<Tid, Thread>)
    ensures r.Keys == ts.Keys && forall t :: t in ts ==> r[t] == ProjThread(prog, ts[t])
  {
    map t | t in ts :: ProjThread(prog, ts[t])
  }

  /** Data, heap, monitor owners and counts are untouched; only positions change. */
  function Proj(prog: Program, s: State): State {
    State(ProjThreads(prog, s.threads), s.shared)
  }

  function ProjOption(prog: Program, s: Option<State>): Option<State> {
    if s.None? then None else Some(Proj(prog, s.value))
  }

  lemma {:induction false} ProjUpdate(prog: Program, s: State, t: Tid, th: Thread, shared: Shared)
    ensures Proj(prog, State(s.threads[t := th], shared)) ==
            State(Proj(prog, s).threads[t := ProjThread(prog, th)], shared)
  {
    var a := ProjThreads(prog, s.threads[t := th]);
    var b := ProjThreads(prog, s.threads)[t := ProjThread(prog, th)];
    assert a.Keys == b.Keys;
    assert forall u :: u in a ==> a[u] == b[u];
  }

  lemma {:induction false} ProjCons(prog: Program, f: Frame, fs: seq<Frame>)
    ensures ProjFrames(prog, [f] + fs) == [ProjFrame(prog, f)] + ProjFrames(prog, fs)
    ensures fs != [] ==> ProjFrames(prog, fs[1..]) == ProjFrames(prog, fs)[1..]
  {}

  lemma {:induction false} ProjSetTop(prog: Program, s: State, t: Tid, f: Frame, mode: Mode, shared: Shared)
    requires Alive(s, t)
    ensures Alive(Proj(prog, s), t)
    ensures Proj(prog, SetTop(s, t, f, mode, shared)) == SetTop(Proj(prog, s), t, ProjFrame(prog, f), mode, shared)
  {
    var frames := s.threads[t].frames;
    ProjCons(prog, f, frames[1..]);
    ProjCons(prog, f, frames);
    ProjUpdate(prog, s, t, Thread([f] + frames[1..], mode), shared);
  }

  /** Old positions of a real instruction and of the one after it. */
  lemma {:induction false} RealPosition(prog: Program, f: Frame)
    requires AtReal(prog, f)
    ensures OldPos(prog[f.mid].insns, f.pc + 1) == OldPos(prog[f.mid].insns, f.pc) + 1
    ensures AtInsn(EraseProgram(prog), ProjFrame(prog, f))
    ensures InsnAt(EraseProgram(prog), ProjFrame(prog, f)) == EraseInsn(prog[f.mid].insns, InsnAt(prog, f))
  {
    var insns := prog[f.mid].insns;
    OldPosMonotone(insns, f.pc, f.pc + 1);
    ErasedInsnAt(insns, insns, f.pc);
  }

  lemma {:induction false} HandlerFoundErased(sem: Semantics, c: Code, table: seq<Range>, q: nat, exc: Value,
          shared: Shared)
    requires q < |c.insns| && !c.insns[q].EventCall?
    requires forall i :: 0 <= i < |table| ==> table[i].start <= |c.insns| && table[i].end <= |c.insns|
    ensures FindHandler(sem, EraseTable(c.insns, table), OldPos(c.insns, q), exc, shared)
        == FindHandler(sem, table, q, exc, shared)
  {
    if table == [] {
    } else {
      CoverageKept(c.insns, table[0], q);
      assert EraseTable(c.insns, table)[1..] == EraseTable(c.insns, table[1..]);
      HandlerFoundErased(sem, c, table[1..], q, exc, shared);
    }
  }

  lemma {:induction false} UnwindCommutes(sem: Semantics, prog: Program, t: Tid, s: State)
    requires ProgramOk(prog) && StateOk(prog, s) && Alive(s, t) && s.threads[t].mode.Unwinding?
    ensures s.threads[t].frames[0].mid in prog && Alive(Proj(prog, s), t)
    ensures Unwind(sem, EraseProgram(prog), t, Proj(prog, s)) == Proj(prog, Unwind(sem, prog, t, s))
  {
    var th := s.threads[t];
    var f := th.frames[0];
    assert ThreadOk(prog, th);
    var c := prog[f.mid];
    assert CodeOk(c);
    var i := FindHandler(sem, c.table, f.pc, th.mode.exc, s.shared);
    HandlerFoundErased(sem, c, c.table, f.pc, th.mode.exc, s.shared);
    if i < |c.table| {
      ProjSetTop(prog, s, t, Goto(f, c.table[i].handler, Data(f.data.locals, [th.mode.exc])), Running, s.shared);
    } else {
      ProjUpdate(prog, s, t, Thread(th.frames[1..], th.mode), s.shared);
      ProjCons(prog, f, th.frames);
    }
  }

  lemma {:induction false} MonitorCommutes(sem: Semantics, prog: Program, t: Tid, kind: Kind, s: State)
    requires Alive(s, t) && AtReal(prog, s.threads[t].frames[0])
    ensures Alive(Proj(prog, s), t)
    ensures MonitorStep(sem, t, kind, Proj(prog, s)) == ProjOption(prog, MonitorStep(sem, t, kind, s))
  {
    var f := s.threads[t].frames[0];
    RealPosition(prog, f);
    var r := MonitorStep(sem, t, kind, s);
    if r.Some? {
      var g := r.value.threads[t].frames[0];
      var mode := r.value.threads[t].mode;
      assert r.value == SetTop(s, t, g, mode, r.value.shared);
      ProjSetTop(prog, s, t, g, mode, r.value.shared);
    }
  }

  lemma {:induction false} PlainCommutes(prog: Program, t: Tid, o: Outcome, s: State)
    requires ProgramOk(prog) && StateOk(prog, s) && Alive(s, t) && AtReal(prog, s.threads[t].frames[0])
    requires InsnAt(prog, s.threads[t].frames[0]).Plain?
    ensures Alive(Proj(prog, s), t)
    ensures var f := s.threads[t].frames[0]; var targets := InsnAt(prog, f).targets;
            PlainStep(EraseProgram(prog), t, OldPositions(prog[f.mid].insns, targets), o, Proj(prog, s))
              == ProjOption(prog, PlainStep(prog, t, targets, o, s))
  {
    var th := s.threads[t];
    var f := th.frames[0];
    var targets := InsnAt(prog, f).targets;
    RealPosition(prog, f);
    match o
    case Next(data, shared) => ProjSetTop(prog, s, t, Goto(f, f.pc + 1, data), Running, shared);
    case Jump(k, data, shared) =>
      if k < |targets| { ProjSetTop(prog, s, t, Goto(f, targets[k], data), Running, shared); }
    case Raise(exc, shared) => ProjSetTop(prog, s, t, f, Unwinding(exc), shared);
    case Invoke(m, args, data, shared) =>
      if m in prog {
        InvokeCommutes(prog, t, m, args, data, shared, s);
      }
    case Result(values, shared) => ResultCommutes(prog, t, values, shared, s);
    case Start(child, m, args, data, shared) =>
      if m in prog && child !in s.threads {
        StartCommutes(prog, t, child, m, args, data, shared, s);
      }
    case Blocked =>
  }

  lemma {:induction false} InvokedFrames(prog: Program, m: MethodId, args: Data, data: Data, fs: seq<Frame>)
    requires fs != [] && m in prog
    ensures var p := ProjFrames(prog, fs);
            ProjFrames(prog, [Frame(m, 0, args), Goto(fs[0], fs[0].pc, data)] + fs[1..])
              == [Frame(m, 0, args), Goto(p[0], p[0].pc, data)] + p[1..]
  {}

  lemma {:induction false} InvokeCommutes(prog: Program, t: Tid, m: MethodId, args: Data, data: Data, shared: Shared,
          s: State)
    requires Alive(s, t) && m in prog
    ensures Alive(Proj(prog, s), t)
    ensures PlainStep(EraseProgram(prog), t, [], Invoke(m, args, data, shared), Proj(prog, s))
              == ProjOption(prog, PlainStep(prog, t, [], Invoke(m, args, data, shared), s))
  {
    var frames := s.threads[t].frames;
    InvokedFrames(prog, m, args, data, frames);
    var called := Thread([Frame(m, 0, args), Goto(frames[0], frames[0].pc, data)] + frames[1..], Running);
    ProjUpdate(prog, s, t, called, shared);
  }

  lemma {:induction false} ResultCommutes(prog: Program, t: Tid, values: seq<Value>, shared: Shared, s: State)
    requires StateOk(prog, s) && Alive(s, t)
    ensures Alive(Proj(prog, s), t)
    ensures PlainStep(EraseProgram(prog), t, [], Result(values, shared), Proj(prog, s))
              == ProjOption(prog, PlainStep(prog, t, [], Result(values, shared), s))
  {
    var th := s.threads[t];
    var rest := th.frames[1..];
    ProjCons(prog, th.frames[0], th.frames);
    assert ThreadOk(prog, th);
    if rest != [] {
      assert AtReal(prog, th.frames[1]);
      RealPosition(prog, rest[0]);
      var g := Goto(rest[0], rest[0].pc + 1, Data(rest[0].data.locals, values + rest[0].data.stack));
      ProjCons(prog, g, rest[1..]);
      ProjCons(prog, g, rest);
    }
    ProjUpdate(prog, s, t, Thread(Return(rest, values), Running), shared);
  }

  lemma {:induction false} StartCommutes(prog: Program, t: Tid, child: Tid, m: MethodId, args: Data, data: Data,
          shared: Shared, s: State)
    requires Alive(s, t) && m in prog && child !in s.threads && AtReal(prog, s.threads[t].frames[0])
    ensures Alive(Proj(prog, s), t)
    ensures PlainStep(EraseProgram(prog), t, [], Start(child, m, args, data, shared), Proj(prog, s))
              == ProjOption(prog, PlainStep(prog, t, [], Start(child, m, args, data, shared), s))
  {
    var f := s.threads[t].frames[0];
    RealPosition(prog, f);
    var g := Goto(f, f.pc + 1, data);
    ProjSetTop(prog, s, t, g, Running, shared);
    var first := Thread([Frame(m, 0, args)], Running);
    ProjUpdate(prog, SetTop(s, t, g, Running, shared), child, first, shared);
    assert ProjFrames(prog, [Frame(m, 0, args)]) == [Frame(m, 0, args)];
  }

  /** Unless it waits at an event call, a thread can do exactly the same in the program with the calls and in the
      program without them, and both end up in the same state (up to positions). */
  lemma {:induction false} StepCommutes(sem: Semantics, prog: Program, t: Tid, input: int, s: State)
    requires ProgramOk(prog) && StateOk(prog, s) && !AtEventCall(prog, s, t)
    ensures Step(sem, EraseProgram(prog), t, input, Proj(prog, s)) == ProjOption(prog, Step(sem, prog, t, input, s))
  {
    if Alive(s, t) {
      var th := s.threads[t];
      var f := th.frames[0];
      assert ThreadOk(prog, th);
      if th.mode.Unwinding? {
        UnwindCommutes(sem, prog, t, s);
      } else if AtInsn(prog, f) {
        RealPosition(prog, f);
        match InsnAt(prog, f)
        case Monitor(kind) => MonitorCommutes(sem, prog, t, kind, s);
        case Plain(op, targets) => PlainCommutes(prog, t, sem.exec(op, input, t, f.mid, f.data, s.shared), s);
      } else {
        ErasedInsnAt(prog[f.mid].insns, prog[f.mid].insns, f.pc);
      }
    }
  }
}

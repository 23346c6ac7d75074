/**
  What is reported. Per thread, the event calls of a run are, in order, the monitor instructions that the same run of
  the original program performs, at most one call ahead; the events that reach the agent are a suffix of them;
  and no enter event is lost or invented between the counter and the worker.
 */
module EventOrder {
  import opened Wrappers
  import opened Bytecode
  import opened Placement
  import opened JavaVm
  import opened Projection
  import opened EventPipeline
  import opened InstrumentedVm
  import opened Simulation
  import opened WholeProgram

  /** The methods in `on` are instrumented, the others contain no event calls. */
  ghost predicate InstrumentedIn(prog: Program, on: set<MethodId>) {
    forall m :: m in prog ==>
      if m in on then Guarded(prog[m])
      else forall q :: 0 <= q < |prog[m].insns| ==> !prog[m].insns[q].EventCall?
  }

  /** The monitor instruction of an instrumented method that `t` is about to execute, if it is at one. */
  function NextMonitor(prog: Program, on: set<MethodId>, s: State, t: Tid): seq<Kind> {
    if Alive(s, t) && s.threads[t].mode.Running? && s.threads[t].frames[0].mid in on
       && AtInsn(prog, s.threads[t].frames[0]) && InsnAt(prog, s.threads[t].frames[0]).Monitor?
    then [InsnAt(prog, s.threads[t].frames[0]).kind] else []
  }

  /** The monitor instructions that `t` performs in a run; one that throws is performed, one that waits is not. */
  function Performed(sem: Semantics, prog: Program, on: set<MethodId>, steps: seq<(Tid, int)>, s: State,
          t: Tid): seq<Kind> {
    if steps == [] then []
    else
      var r := Step(sem, prog, steps[0].0, steps[0].1, s);
      if r.None? then []
      else
        (if steps[0].0 == t then NextMonitor(prog, on, s, t) else [])
        + Performed(sem, prog, on, steps[1..], r.value, t)
  }

  /** The event call that this action begins. */
  function CallBegun(prog: Program, l: Action, s: System, t: Tid): seq<Kind> {
    if l == Handler(t) && PhaseOf(s.busy, t).Idle? && AtEventCall(prog, s.vm, t) then [KindAt(prog, s.vm, t)] else []
  }

  /** The event that this action forwards to ApplicationEvents. */
  function EventForwarded(l: Action, s: System, t: Tid): seq<Kind> {
    if l == Handler(t) && PhaseOf(s.busy, t).AtFlag? && s.agent.flag then [PhaseOf(s.busy, t).kind] else []
  }

  function Calls(sem: Semantics, prog: Program, ls: seq<Action>, s: System, t: Tid): seq<Kind> {
    if ls == [] then []
    else
      var r := SysStep(sem, prog, ls[0], s);
      if r.None? then [] else CallBegun(prog, ls[0], s, t) + Calls(sem, prog, ls[1..], r.value, t)
  }

  function Forwarded(sem: Semantics, prog: Program, ls: seq<Action>, s: System, t: Tid): seq<Kind> {
    if ls == [] then []
    else
      var r := SysStep(sem, prog, ls[0], s);
      if r.None? then [] else EventForwarded(ls[0], s, t) + Forwarded(sem, prog, ls[1..], r.value, t)
  }

  /** The event call that has begun and whose monitor instruction has not been performed yet. */
  function Ahead(prog: Program, on: set<MethodId>, s: System, t: Tid): (r: seq<Kind>)
    ensures |r| <= 1
  {
    if PhaseOf(s.busy, t).Idle? then NextMonitor(prog, on, s.vm, t)
    else if AtEventCall(prog, s.vm, t) then [KindAt(prog, s.vm, t)]
    else []
  }

  // ---------------------------------------------------------------- calls against instructions

  /** Control never gets between an event call and its instruction except through the call. */
  lemma {:induction false} NotInsideAfterReal(prog: Program, on: set<MethodId>, f: Frame)
    requires InstrumentedIn(prog, on) && AtReal(prog, f) && f.mid in on
    ensures NotInside(prog[f.mid], f.pc + 1)
  {
    var c := prog[f.mid];
    var next := f.pc + 1;
    assert Guarded(c);
    assert next < |c.insns| ==> !c.insns[next].Monitor?;
  }

  lemma {:induction false} PlainNotAhead(prog: Program, on: set<MethodId>, t: Tid, o: Outcome, s: State)
    requires ProgramOk(prog) && InstrumentedIn(prog, on) && StateOk(prog, s) && Alive(s, t)
    requires AtReal(prog, s.threads[t].frames[0]) && InsnAt(prog, s.threads[t].frames[0]).Plain?
    ensures var r := PlainStep(prog, t, InsnAt(prog, s.threads[t].frames[0]).targets, o, s);
            r.Some? ==> NextMonitor(prog, on, r.value, t) == []
  {
    var th := s.threads[t];
    var f := th.frames[0];
    var targets := InsnAt(prog, f).targets;
    if f.mid in on { NotInsideAfterReal(prog, on, f); assert Guarded(prog[f.mid]); }
    match o
    case Jump(k, data, shared) =>
      if k < |targets| && f.mid in on { assert NotInside(prog[f.mid], prog[f.mid].insns[f.pc].targets[k]); }
    case Invoke(m, args, data, shared) =>
      if m in prog && m in on { assert Guarded(prog[m]); }
    case Result(values, shared) =>
      if |th.frames| > 1 {
        assert ThreadOk(prog, th);
        assert AtReal(prog, th.frames[1]);
        if th.frames[1].mid in on { NotInsideAfterReal(prog, on, th.frames[1]); }
      }
    case _ =>
  }

  lemma {:induction false} StepNotAhead(sem: Semantics, prog: Program, on: set<MethodId>, t: Tid, input: int, s: State)
    requires ProgramOk(prog) && InstrumentedIn(prog, on) && StateOk(prog, s) && Step(sem, prog, t, input, s).Some?
    ensures NextMonitor(prog, on, Step(sem, prog, t, input, s).value, t) == []
  {
    var th := s.threads[t];
    var f := th.frames[0];
    if th.mode.Unwinding? {
      if f.mid in on {
        assert Guarded(prog[f.mid]);
        var i := FindHandler(sem, prog[f.mid].table, f.pc, th.mode.exc, s.shared);
        if i < |prog[f.mid].table| { assert NotInside(prog[f.mid], prog[f.mid].table[i].handler); }
      }
    } else {
      match InsnAt(prog, f)
      case Monitor(kind) =>
        if f.mid in on { NotInsideAfterReal(prog, on, f); }
      case Plain(op, targets) => PlainNotAhead(prog, on, t, sem.exec(op, input, t, f.mid, f.data, s.shared), s);
    }
  }

  lemma {:induction false} AppInOrder(sem: Semantics, prog: Program, on: set<MethodId>, u: Tid, input: int, s: System,
          t: Tid)
    requires ProgramOk(prog) && InstrumentedIn(prog, on) && SysOk(prog, s) && SysStep(sem, prog, App(u, input), s).Some?
    ensures Ahead(prog, on, s, t) ==
            (if u == t then NextMonitor(prog, on, s.vm, t) else [])
                + Ahead(prog, on, SysStep(sem, prog, App(u, input), s).value, t)
  {
    var s' := SysStep(sem, prog, App(u, input), s).value;
    if u == t {
      StepNotAhead(sem, prog, on, t, input, s.vm);
    } else {
      StepIsLocal(sem, prog, u, input, s.vm, t);
      BornNotAhead(prog, on, s, s', t);
    }
  }

  lemma {:induction false} OthersCallInOrder(prog: Program, on: set<MethodId>, u: Tid, s: System, t: Tid)
    requires u != t && SysOk(prog, s) && HandlerStep(prog, u, s).Some?
    ensures Ahead(prog, on, s, t) == Ahead(prog, on, HandlerStep(prog, u, s).value, t)
  {
    assert PhaseOf(HandlerStep(prog, u, s).value.busy, t) == PhaseOf(s.busy, t);
  }

  /** What one action adds to the calls, it adds to the performed instructions or to what is ahead. */
  lemma {:induction false} ActionInOrder(sem: Semantics, prog: Program, on: set<MethodId>, l: Action, s: System, t: Tid)
    requires ProgramOk(prog) && InstrumentedIn(prog, on) && SysOk(prog, s) && SysStep(sem, prog, l, s).Some?
    ensures var s' := SysStep(sem, prog, l, s).value;
            Ahead(prog, on, s, t) + CallBegun(prog, l, s, t) ==
            (if l.App? && l.t == t then NextMonitor(prog, on, s.vm, t) else []) + Ahead(prog, on, s', t)
  {
    match l
    case App(u, input) => AppInOrder(sem, prog, on, u, input, s, t);
    case Handler(u) =>
      if u == t { OwnCallInOrder(prog, on, t, s); } else { OthersCallInOrder(prog, on, u, s, t); }
    case Stage =>
    case Worker =>
  }

  lemma {:induction false} BornNotAhead(prog: Program, on: set<MethodId>, s: System, s': System, t: Tid)
    requires InstrumentedIn(prog, on) && SysOk(prog, s) && s'.busy == s.busy
    requires t in s.vm.threads ==> t in s'.vm.threads && s'.vm.threads[t] == s.vm.threads[t]
    requires t !in s.vm.threads && t in s'.vm.threads ==>
               exists m, args :: m in prog && s'.vm.threads[t] == Thread([Frame(m, 0, args)], Running)
    ensures Ahead(prog, on, s', t) == Ahead(prog, on, s, t)
  {
    if t !in s.vm.threads && t in s'.vm.threads {
      var m, args :| m in prog && s'.vm.threads[t] == Thread([Frame(m, 0, args)], Running);
      assert !AtEventCall(prog, s.vm, t);
      assert PhaseOf(s.busy, t).Idle?;
      if m in on { assert Guarded(prog[m]) && NotInside(prog[m], 0); }
    }
  }

  lemma {:induction false} OwnCallInOrder(prog: Program, on: set<MethodId>, t: Tid, s: System)
    requires InstrumentedIn(prog, on) && SysOk(prog, s) && HandlerStep(prog, t, s).Some?
    ensures Ahead(prog, on, s, t) + CallBegun(prog, Handler(t), s, t)
        == Ahead(prog, on, HandlerStep(prog, t, s).value, t)
  {
    var s' := HandlerStep(prog, t, s).value;
    if PhaseOf(s.busy, t).AtReturn? {
      assert AtEventCall(prog, s.vm, t);
      var f := s.vm.threads[t].frames[0];
      assert f.mid in on && Guarded(prog[f.mid]);
      assert prog[f.mid].insns[f.pc + 1] == Monitor(KindAt(prog, s.vm, t));
    } else {
      assert AtEventCall(prog, s.vm, t);
    }
  }

  lemma {:induction false} NextMonitorProjects(prog: Program, on: set<MethodId>, s: State, t: Tid)
    requires StateOk(prog, s) && !AtEventCall(prog, s, t)
    ensures NextMonitor(EraseProgram(prog), on, Proj(prog, s), t) == NextMonitor(prog, on, s, t)
  {
    if Alive(s, t) && s.threads[t].mode.Running? {
      var f := s.threads[t].frames[0];
      assert ThreadOk(prog, s.threads[t]);
      if AtInsn(prog, f) {
        RealPosition(prog, f);
      } else {
        ErasedInsnAt(prog[f.mid].insns, prog[f.mid].insns, f.pc);
      }
    }
  }

  lemma {:induction false} AppNotAtCall(sem: Semantics, prog: Program, t: Tid, input: int, s: System)
    requires SysStep(sem, prog, App(t, input), s).Some?
    ensures !AtEventCall(prog, s.vm, t)
  {}

  /** The performed instructions of the projected run, one action at a time. */
  lemma {:induction false} PerformedStep(sem: Semantics, prog: Program, on: set<MethodId>, ls: seq<Action>, s: System,
          t: Tid)
    requires ProgramOk(prog) && SysOk(prog, s) && ls != [] && SysStep(sem, prog, ls[0], s).Some?
    ensures var s' := SysStep(sem, prog, ls[0], s).value; var e := EraseProgram(prog);
            Performed(sem, e, on, Schedule(ls), Proj(prog, s.vm), t) ==
            (if ls[0].App? && ls[0].t == t then NextMonitor(prog, on, s.vm, t) else [])
            + Performed(sem, e, on, Schedule(ls[1..]), Proj(prog, s'.vm), t)
  {
    hide Step, Proj, NextMonitor;
    var l := ls[0];
    StepProjects(sem, prog, l, s);
    if l.App? {
      AppNotAtCall(sem, prog, l.t, l.input, s);
      NextMonitorProjects(prog, on, s.vm, l.t);
      assert Schedule(ls) == [(l.t, l.input)] + Schedule(ls[1..]);
      assert Schedule(ls)[1..] == Schedule(ls[1..]);
    } else {
      assert Schedule(ls) == Schedule(ls[1..]);
    }
  }

  lemma {:induction false} Telescope<T>(a: seq<T>, begun: seq<T>, later: seq<T>, now: seq<T>, b: seq<T>, rest: seq<T>,
          last: seq<T>)
    requires a + begun == now + b && b + later == rest + last
    ensures a + (begun + later) == (now + rest) + last
  {
    assert a + (begun + later) == (a + begun) + later;
    assert (now + b) + later == now + (b + later);
    assert now + (rest + last) == (now + rest) + last;
  }

  /** Per thread, over any run: the event calls are, in order, the monitor instructions which the projected run of the
      original program performs in the instrumented methods, plus at most the one that comes next. */
  lemma {:induction false} CallsFollowProgram(sem: Semantics, prog: Program, on: set<MethodId>, ls: seq<Action>,
          s: System, t: Tid)
    requires ProgramOk(prog) && InstrumentedIn(prog, on) && SysOk(prog, s) && SysRun(sem, prog, ls, s).Some?
    ensures Ahead(prog, on, s, t) + Calls(sem, prog, ls, s, t) ==
            Performed(sem, EraseProgram(prog), on, Schedule(ls), Proj(prog, s.vm), t)
            + Ahead(prog, on, SysRun(sem, prog, ls, s).value, t)
  {
    if ls == [] {
    } else {
      var l := ls[0];
      var s' := SysStep(sem, prog, l, s).value;
      SysStepKeepsOk(sem, prog, l, s);
      CallsFollowProgram(sem, prog, on, ls[1..], s', t);
      ActionInOrder(sem, prog, on, l, s, t);
      PerformedStep(sem, prog, on, ls, s, t);
      Telescope(Ahead(prog, on, s, t), CallBegun(prog, l, s, t), Calls(sem, prog, ls[1..], s', t),
                if l.App? && l.t == t then NextMonitor(prog, on, s.vm, t) else [], Ahead(prog, on, s', t),
                Performed(sem, EraseProgram(prog), on, Schedule(ls[1..]), Proj(prog, s'.vm), t),
                Ahead(prog, on, SysRun(sem, prog, ls, s).value, t));
    }
  }

  // ---------------------------------------------------------------- forwarded events

  /** The call that has begun and has not read the flag yet. */
  function Undecided(s: System, t: Tid): seq<Kind> {
    if PhaseOf(s.busy, t).AtFlag? then [PhaseOf(s.busy, t).kind] else []
  }

  predicate IsSuffix(a: seq<Kind>, b: seq<Kind>) {
    |a| <= |b| && a == b[|b| - |a|..]
  }

  /** What one action does to the reported events `f`, the begun calls `c` and the undecided call. */
  predicate StepForwards(flag: bool, f: seq<Kind>, c: seq<Kind>, u: seq<Kind>, u1: seq<Kind>) {
    if flag then f + u1 == u + c else f == [] && IsSuffix(u1, u + c)
  }

  lemma {:induction false} SuffixOf(a: seq<Kind>, b: seq<Kind>)
    requires a == [] || a == b
    ensures IsSuffix(a, b)
  {}

  /** Where a thread is after one of its own handler steps. */
  lemma {:induction false} OwnPhase(prog: Program, s: System, t: Tid)
    requires HandlerStep(prog, t, s).Some?
    ensures HandlerStep(prog, t, s).value.agent.flag == s.agent.flag
    ensures Undecided(HandlerStep(prog, t, s).value, t)
            == if PhaseOf(s.busy, t).Idle? then CallBegun(prog, Handler(t), s, t) else []
  {
    assert PhaseOf(s.busy, t).Idle? ==> AtEventCall(prog, s.vm, t);
  }

  lemma {:induction false} OwnHandlerForwards(prog: Program, s: System, t: Tid)
    requires HandlerStep(prog, t, s).Some?
    ensures var s' := HandlerStep(prog, t, s).value;
            && s'.agent.flag == s.agent.flag
            && StepForwards(s.agent.flag, EventForwarded(Handler(t), s, t), CallBegun(prog, Handler(t), s, t),
                Undecided(s, t), Undecided(s', t))
  {
    OwnPhase(prog, s, t);
    var c := CallBegun(prog, Handler(t), s, t);
    assert [] + c == c && Undecided(s, t) + [] == Undecided(s, t);
    SuffixOf(c, c);
    SuffixOf([], Undecided(s, t));
  }

  lemma {:induction false} OtherActionForwards(sem: Semantics, prog: Program, l: Action, s: System, t: Tid)
    requires l != Handler(t) && SysOk(prog, s) && SysStep(sem, prog, l, s).Some?
    ensures var s' := SysStep(sem, prog, l, s).value;
            (s.agent.flag ==> s'.agent.flag) && Undecided(s', t) == Undecided(s, t)
  {
    var s' := SysStep(sem, prog, l, s).value;
    if l.Handler? { assert PhaseOf(s'.busy, t) == PhaseOf(s.busy, t); }
  }

  lemma {:induction false} ActionForwards(sem: Semantics, prog: Program, l: Action, s: System, t: Tid)
    requires SysOk(prog, s) && SysStep(sem, prog, l, s).Some?
    ensures var s' := SysStep(sem, prog, l, s).value;
            && (s.agent.flag ==> s'.agent.flag)
            && StepForwards(s.agent.flag, EventForwarded(l, s, t), CallBegun(prog, l, s, t), Undecided(s, t),
                Undecided(s', t))
  {
    hide SysOk;
    if l == Handler(t) {
      OwnHandlerForwards(prog, s, t);
    } else {
      OtherActionForwards(sem, prog, l, s, t);
    }
  }

  /** The flag only ever goes from false to true, so what a thread has forwarded, together with the call that has not
      read the flag yet, is a suffix of its event calls; and it is all of them if the flag was set before. */
  lemma {:induction false} ForwardedIsSuffix(sem: Semantics, prog: Program, ls: seq<Action>, s: System, t: Tid)
    requires ProgramOk(prog) && SysOk(prog, s) && SysRun(sem, prog, ls, s).Some?
    ensures var s' := SysRun(sem, prog, ls, s).value;
            var reported := Forwarded(sem, prog, ls, s, t) + Undecided(s', t);
            var made := Undecided(s, t) + Calls(sem, prog, ls, s, t);
            IsSuffix(reported, made) && (s.agent.flag ==> reported == made)
  {
    if ls == [] {
    } else {
      var l := ls[0];
      var s1 := SysStep(sem, prog, l, s).value;
      SysStepKeepsOk(sem, prog, l, s);
      ActionForwards(sem, prog, l, s, t);
      ForwardedIsSuffix(sem, prog, ls[1..], s1, t);
      SuffixStep(s.agent.flag, EventForwarded(l, s, t), Forwarded(sem, prog, ls[1..], s1, t),
                 CallBegun(prog, l, s, t), Calls(sem, prog, ls[1..], s1, t),
                 Undecided(s, t), Undecided(s1, t), Undecided(SysRun(sem, prog, ls, s).value, t));
    }
  }

  lemma {:induction false} SuffixStep(flag: bool, f: seq<Kind>, fs: seq<Kind>, c: seq<Kind>, cs: seq<Kind>,
          u: seq<Kind>, u1: seq<Kind>, last: seq<Kind>)
    requires if flag then f + u1 == u + c && fs + last == u1 + cs
             else f == [] && IsSuffix(u1, u + c) && IsSuffix(fs + last, u1 + cs)
    ensures IsSuffix((f + fs) + last, u + (c + cs))
    ensures flag ==> (f + fs) + last == u + (c + cs)
  {
    assert (f + fs) + last == f + (fs + last);
    assert u + (c + cs) == (u + c) + cs;
    if flag {
      assert f + (u1 + cs) == (f + u1) + cs;
    } else {
      SuffixTrans(fs + last, u1, u + c, cs);
      assert f + (fs + last) == fs + last;
    }
  }

  lemma {:induction false} SuffixTrans(x: seq<Kind>, a: seq<Kind>, b: seq<Kind>, tail: seq<Kind>)
    requires IsSuffix(x, a + tail) && IsSuffix(a, b)
    ensures IsSuffix(x, b + tail)
  {
    var n := |b| - |a|;
    assert b == b[..n] + a;
    assert b + tail == b[..n] + (a + tail);
  }

  // ---------------------------------------------------------------- counted events

  /** The event that this action counts. */
  function EventCounted(l: Action, s: System, t: Tid): seq<Kind> {
    if l == Handler(t) && PhaseOf(s.busy, t).AtCount? then [PhaseOf(s.busy, t).kind] else []
  }

  function CountedBy(sem: Semantics, prog: Program, ls: seq<Action>, s: System, t: Tid): seq<Kind> {
    if ls == [] then []
    else
      var r := SysStep(sem, prog, ls[0], s);
      if r.None? then [] else EventCounted(ls[0], s, t) + CountedBy(sem, prog, ls[1..], r.value, t)
  }

  /** The event that was forwarded and is not counted yet. */
  function Uncounted(s: System, t: Tid): seq<Kind> {
    if PhaseOf(s.busy, t).AtCount? then [PhaseOf(s.busy, t).kind] else []
  }

  lemma {:induction false} ActionCountsForwarded(sem: Semantics, prog: Program, l: Action, s: System, t: Tid)
    requires SysStep(sem, prog, l, s).Some?
    ensures Uncounted(s, t) + EventForwarded(l, s, t) ==
            EventCounted(l, s, t) + Uncounted(SysStep(sem, prog, l, s).value, t)
  {
    var s' := SysStep(sem, prog, l, s).value;
    if l.Handler? && l.t != t { assert PhaseOf(s'.busy, t) == PhaseOf(s.busy, t); }
  }

  /** Per thread, over any run: the events that were counted are, in order, those that were forwarded, except that the
      last of them may still have to be counted. */
  lemma {:induction false} ForwardedAreCounted(sem: Semantics, prog: Program, ls: seq<Action>, s: System, t: Tid)
    requires SysRun(sem, prog, ls, s).Some?
    ensures Uncounted(s, t) + Forwarded(sem, prog, ls, s, t) ==
            CountedBy(sem, prog, ls, s, t) + Uncounted(SysRun(sem, prog, ls, s).value, t)
  {
    hide SysStep, EventForwarded, EventCounted;
    if ls == [] {
    } else {
      var s1 := SysStep(sem, prog, ls[0], s).value;
      ActionCountsForwarded(sem, prog, ls[0], s, t);
      ForwardedAreCounted(sem, prog, ls[1..], s1, t);
      Telescope(Uncounted(s, t), EventForwarded(ls[0], s, t), Forwarded(sem, prog, ls[1..], s1, t),
          EventCounted(ls[0], s, t), Uncounted(s1, t), CountedBy(sem, prog, ls[1..], s1, t),
          Uncounted(SysRun(sem, prog, ls, s).value, t));
    }
  }

  // ---------------------------------------------------------------- conservation

  function CountAt(l: Action, s: System, k: Kind): nat {
    if l.Handler? && PhaseOf(s.busy, l.t) == AtCount(k) then 1 else 0
  }

  /** How often a run increments the counter of kind `k`. */
  function Increments(sem: Semantics, prog: Program, ls: seq<Action>, s: System, k: Kind): nat {
    if ls == [] then 0
    else
      var r := SysStep(sem, prog, ls[0], s);
      if r.None? then 0 else CountAt(ls[0], s, k) + Increments(sem, prog, ls[1..], r.value, k)
  }

  /** Threads that have counted an enter event and have not sent it yet. */
  function Sending(s: System): set<Tid> {
    set t | t in s.busy && (s.busy[t].AtLock? || s.busy[t].Holding?)
  }

  lemma {:induction false} SendingIs(s: System, t: Tid)
    ensures t in Sending(s) <==> PhaseOf(s.busy, t).AtLock? || PhaseOf(s.busy, t).Holding?
  {}

  function IsSending(ph: Phase): nat {
    if ph.AtLock? || ph.Holding? then 1 else 0
  }

  lemma {:induction false} WithoutOne(ts: set<Tid>, t: Tid)
    ensures |ts - {t}| + (if t in ts then 1 else 0) == |ts|
  {
    if t !in ts { assert ts - {t} == ts; }
  }

  /** Only the thread that moves can start or stop being about to send. */
  lemma {:induction false} SendingMoves(s: System, s': System, t: Tid)
    requires forall u :: u != t ==> PhaseOf(s'.busy, u) == PhaseOf(s.busy, u)
    ensures |Sending(s')| + IsSending(PhaseOf(s.busy, t)) == |Sending(s)| + IsSending(PhaseOf(s'.busy, t))
  {
    forall u ensures u in Sending(s') - {t} <==> u in Sending(s) - {t} {
      SendingIs(s, u);
      SendingIs(s', u);
    }
    assert Sending(s') - {t} == Sending(s) - {t};
    SendingIs(s, t);
    SendingIs(s', t);
    WithoutOne(Sending(s), t);
    WithoutOne(Sending(s'), t);
  }

  lemma {:induction false} HandlerConserves(prog: Program, t: Tid, s: System)
    requires SysOk(prog, s) && HandlerStep(prog, t, s).Some?
    ensures var s' := HandlerStep(prog, t, s).value;
            |Sending(s')| + s'.agent.queued + s'.agent.received
              == CountAt(Handler(t), s, Enter) + |Sending(s)| + s.agent.queued + s.agent.received
  {
    var s' := HandlerStep(prog, t, s).value;
    var ph := PhaseOf(s'.busy, t);
    assert s'.busy == s.busy[t := ph];
    assert PhaseOf(s.busy, t) != Idle ==> JavaRuns(s.agent);
    SendingMoves(s, s', t);
  }

  /** Events about to be sent, in the channel, and received. */
  function InFlight(s: System): nat {
    |Sending(s)| + s.agent.queued + s.agent.received
  }

  lemma {:induction false} ActionConserves(sem: Semantics, prog: Program, l: Action, s: System)
    requires SysOk(prog, s) && SysStep(sem, prog, l, s).Some?
    ensures InFlight(SysStep(sem, prog, l, s).value) == CountAt(l, s, Enter) + InFlight(s)
  {
    hide SysOk, HandlerStep;
    if l.Handler? {
      HandlerConserves(prog, l.t, s);
    } else {
      assert Sending(SysStep(sem, prog, l, s).value) == Sending(s);
    }
  }

  /** Over any run: enter events counted = events about to be sent + messages in the channel + messages received
      (each taken relative to the start). Exit events never enter the channel. */
  lemma {:induction false} EventsConserved(sem: Semantics, prog: Program, ls: seq<Action>, s: System)
    requires ProgramOk(prog) && SysOk(prog, s) && SysRun(sem, prog, ls, s).Some?
    ensures InFlight(SysRun(sem, prog, ls, s).value) == Increments(sem, prog, ls, s, Enter) + InFlight(s)
  {
    hide SysOk, SysStep, InFlight, CountAt;
    if ls == [] {
    } else {
      SysStepKeepsOk(sem, prog, ls[0], s);
      ActionConserves(sem, prog, ls[0], s);
      EventsConserved(sem, prog, ls[1..], SysStep(sem, prog, ls[0], s).value);
    }
  }

  function CounterOf(a: Agent, k: Kind): int {
    if k.Enter? then a.enterCounter else a.exitCounter
  }

  lemma {:induction false} ActionCounts(sem: Semantics, prog: Program, l: Action, s: System, k: Kind)
    requires SysStep(sem, prog, l, s).Some?
    ensures CounterOf(SysStep(sem, prog, l, s).value.agent, k)
            == if CountAt(l, s, k) == 1 then Wrap32(CounterOf(s.agent, k) + 1) else CounterOf(s.agent, k)
  {}

  /** Java's `int` addition gives a number from -2^31 to 2^31 - 1 that differs from the sum by a multiple of 2^32. */
  lemma {:induction false} WrapIs(n: int)
    ensures -0x8000_0000 <= Wrap32(n) < 0x8000_0000 && (n - Wrap32(n)) % 0x1_0000_0000 == 0
  {}

  lemma {:induction false} Congruent(c: int, c1: int, c2: int, n: int)
    requires (c + 1 - c1) % 0x1_0000_0000 == 0 && (c1 + n - c2) % 0x1_0000_0000 == 0
    ensures (c + (1 + n) - c2) % 0x1_0000_0000 == 0
  {}

  /** The reported counter is a Java `int` that differs from the number of increments so far by a multiple of 2^32. */
  lemma {:induction false} CountersCount(sem: Semantics, prog: Program, ls: seq<Action>, s: System, k: Kind)
    requires SysRun(sem, prog, ls, s).Some? && -0x8000_0000 <= CounterOf(s.agent, k) < 0x8000_0000
    ensures var c := CounterOf(SysRun(sem, prog, ls, s).value.agent, k);
            && -0x8000_0000 <= c < 0x8000_0000
            && (CounterOf(s.agent, k) + Increments(sem, prog, ls, s, k) - c) % 0x1_0000_0000 == 0
  {
    hide SysStep, Wrap32, CounterOf;
    if ls == [] {
    } else {
      var s1 := SysStep(sem, prog, ls[0], s).value;
      ActionCounts(sem, prog, ls[0], s, k);
      WrapIs(CounterOf(s.agent, k) + 1);
      CountersCount(sem, prog, ls[1..], s1, k);
      if CountAt(ls[0], s, k) == 1 {
        Congruent(CounterOf(s.agent, k), CounterOf(s1.agent, k), CounterOf(SysRun(sem, prog, ls, s).value.agent, k),
            Increments(sem, prog, ls[1..], s1, k));
      }
    }
  }

  // ---------------------------------------------------------------- from loading the agent on

  lemma {:induction false} InstrumentedProgramIn(h: string, ms: Methods, on: set<MethodId>)
    requires MethodsOk(h, ms)
    ensures InstrumentedIn(InstrumentedProgram(h, ms, on), on)
  {
    forall m | m in ms && m in on ensures Guarded(InstrumentedProgram(h, ms, on)[m]) {
      InstrumentedIsGuarded(h, ms[m]);
    }
    forall m | m in ms && m !in on ensures NoEventCalls(InstrumentedProgram(h, ms, on)[m].insns) {
      OriginalHasNoEventCalls(h, ms[m], ms[m]);
    }
  }

  lemma {:induction false} BeginsEmpty(prog: Program, ms: Methods, on: set<MethodId>, s: State, t: Tid)
    requires InstrumentedIn(prog, on) && Initial(ms, s)
    ensures Ahead(prog, on, Boot(s), t) == [] && Undecided(Boot(s), t) == []
  {
    if Alive(s, t) && s.threads[t].frames[0].mid in prog && s.threads[t].frames[0].mid in on {
      assert Guarded(prog[s.threads[t].frames[0].mid]);
    }
  }

  /** For every method set, any part of it instrumented, every initial state and every run from loading the agent on:
      per thread, the event calls are the monitor instructions performed by the original program under the same
      schedule, in order, plus at most the next one; the forwarded events are a suffix of the calls (up to the
      call that has not read the flag yet). */
  lemma {:induction false} ReportedEvents(sem: Semantics, h: string, ms: Methods, on: set<MethodId>, ls: seq<Action>,
          s: State, t: Tid)
    requires MethodsOk(h, ms) && Initial(ms, s)
    requires SysRun(sem, InstrumentedProgram(h, ms, on), ls, Boot(s)).Some?
    ensures var p := InstrumentedProgram(h, ms, on); var s' := SysRun(sem, p, ls, Boot(s)).value;
            var calls := Calls(sem, p, ls, Boot(s), t);
            && calls == Performed(sem, OriginalProgram(h, ms), on, Schedule(ls), s, t) + Ahead(p, on, s', t)
            && IsSuffix(Forwarded(sem, p, ls, Boot(s), t) + Undecided(s', t), calls)
  {
    var p := InstrumentedProgram(h, ms, on);
    ErasedIsOriginal(h, ms, on);
    InitialProjects(h, ms, on, s);
    InstrumentedProgramIn(h, ms, on);
    BootOk(p, s);
    BeginsEmpty(p, ms, on, s, t);
    CallsFollowProgram(sem, p, on, ls, Boot(s), t);
    ForwardedIsSuffix(sem, p, ls, Boot(s), t);
    assert [] + Calls(sem, p, ls, Boot(s), t) == Calls(sem, p, ls, Boot(s), t);
  }

  /** For every run from loading the agent on: both counters are Java `int`s that give the number of increments up to a
      multiple of 2^32; each enter event counted is about to be sent, in the channel, or received. */
  lemma {:induction false} NoEventLost(sem: Semantics, prog: Program, ls: seq<Action>, s: State)
    requires ProgramOk(prog) && StateOk(prog, s) && SysRun(sem, prog, ls, Boot(s)).Some?
    ensures var s' := SysRun(sem, prog, ls, Boot(s)).value;
            var entered := Increments(sem, prog, ls, Boot(s), Enter);
            && entered == |Sending(s')| + s'.agent.queued + s'.agent.received
            && -0x8000_0000 <= s'.agent.enterCounter < 0x8000_0000
            && (entered - s'.agent.enterCounter) % 0x1_0000_0000 == 0
            && -0x8000_0000 <= s'.agent.exitCounter < 0x8000_0000
            && (Increments(sem, prog, ls, Boot(s), Exit) - s'.agent.exitCounter) % 0x1_0000_0000 == 0
  {
    BootOk(prog, s);
    EventsConserved(sem, prog, ls, Boot(s));
    CountersCount(sem, prog, ls, Boot(s), Enter);
    CountersCount(sem, prog, ls, Boot(s), Exit);
    assert Sending(Boot(s)) == {};
  }

  // ---------------------------------------------------------------- every event arrives

  /** The worker alone empties the channel. */
  lemma {:induction false} Drain(sem: Semantics, prog: Program, s: System) returns (ls: seq<Action>, s': System)
    requires ProgramOk(prog) && SysOk(prog, s) && JavaRuns(s.agent)
    ensures SysRun(sem, prog, ls, s) == Some(s') && Schedule(ls) == []
    ensures s'.agent.queued == 0 && s'.busy == s.busy && s'.vm == s.vm
    decreases s.agent.queued
  {
    hide StateOk, HandlerStep;
    if s.agent.queued == 0 {
      ls, s' := [], s;
    } else {
      var n := SysStep(sem, prog, Worker, s).value;
      SysStepKeepsOk(sem, prog, Worker, s);
      ls, s' := Drain(sem, prog, n);
      ls := [Worker] + ls;
      assert ls[1..] == ls[1..][..];
    }
  }

  /** From any reachable state, everything under way arrives without a step of the application: start-up ends, the event
      calls in progress are completed, and the worker receives what is in the channel. */
  lemma {:induction false} Settle(sem: Semantics, prog: Program, s: System) returns (ls: seq<Action>, s': System)
    requires ProgramOk(prog) && SysOk(prog, s)
    ensures SysRun(sem, prog, ls, s) == Some(s') && Schedule(ls) == []
    ensures Sending(s') == {} && s'.agent.queued == 0 && Proj(prog, s'.vm) == Proj(prog, s.vm)
  {
    hide SysOk, SysStep, Proj;
    var a, s1 := FinishStartUp(sem, prog, s);
    var b, s2 := Quiesce(sem, prog, s1);
    var c, s3 := Drain(sem, prog, s2);
    ls, s' := a + (b + c), s3;
    SysRunConcat(sem, prog, b, c, s1);
    SysRunConcat(sem, prog, a, b + c, s);
    ScheduleConcat(b, c);
    ScheduleConcat(a, b + c);
    forall t ensures t !in Sending(s3) {
      assert t !in BusyThreads(s2);
    }
  }

  /** Every run from loading the agent on can be continued, without any step of the application and without any change
      to what the application sees, until every enter event ever counted has been received by the worker. */
  lemma {:induction false} EveryEventArrives(sem: Semantics, prog: Program, ls: seq<Action>, s: State)
    returns (more: seq<Action>)
    requires ProgramOk(prog) && StateOk(prog, s) && SysRun(sem, prog, ls, Boot(s)).Some?
    ensures Schedule(more) == [] && SysRun(sem, prog, ls + more, Boot(s)).Some?
    ensures var before := SysRun(sem, prog, ls, Boot(s)).value;
            var after := SysRun(sem, prog, ls + more, Boot(s)).value;
            && Sending(after) == {} && after.agent.queued == 0
            && after.agent.received == Increments(sem, prog, ls + more, Boot(s), Enter)
            && Proj(prog, after.vm) == Proj(prog, before.vm)
  {
    hide SysOk, SysStep, Proj;
    BootOk(prog, s);
    SysRunKeepsOk(sem, prog, ls, Boot(s));
    var end;
    more, end := Settle(sem, prog, SysRun(sem, prog, ls, Boot(s)).value);
    SysRunConcat(sem, prog, ls, more, Boot(s));
    NoEventLost(sem, prog, ls + more, s);
  }
}

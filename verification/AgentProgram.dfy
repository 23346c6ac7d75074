/**
  The least program with the agent in it meets what the run theorems about loaded classes ask for, native methods and
  grafted members included; so they apply to it.
 */
module AgentProgram {
  import opened Bytecode
  import opened InsertedCalls
  import opened ClassFiles
  import opened Linking
  import opened JavaVm
  import opened InstrumentedVm
  import opened Simulation
  import opened WholeProgram
  import opened HandlerClasses
  import opened Reentry
  import opened ClassPrograms

  /** Bodies that neither jump nor catch. */
  predicate Straight(b: seq<Event>) {
    forall e :: e in b ==> !e.VisitTryCatch? && (e.VisitOther? ==> e.labels == [])
  }

  lemma {:induction false} StraightInsn(h: string, all: seq<Event>, e: Event)
    requires e.IsInsn() && (e.VisitOther? ==> e.labels == [])
    ensures ResolveInsn(h, all, e).Plain? ==> ResolveInsn(h, all, e).targets == []
  {
    if e.VisitOther? { assert LabelPositions(all, e.labels) == []; }
  }

  lemma {:induction false} StraightInsns(h: string, all: seq<Event>, b: seq<Event>)
    requires Straight(b)
    ensures forall i :: i in ResolveInsns(h, all, b) && i.Plain? ==> i.targets == []
    ensures ResolveTable(all, b) == []
  {
    hide ResolveInsn;
    if b == [] {
    } else {
      assert b[0] in b;
      assert forall e :: e in b[1..] ==> e in b;
      StraightInsns(h, all, b[1..]);
      if b[0].IsInsn() { StraightInsn(h, all, b[0]); }
    }
  }

  /** Code without jumps and handlers is well-formed; so is no code at all, which is what native methods have. */
  lemma {:induction false} StraightIsOk(h: string, b: seq<Event>)
    requires Straight(b)
    ensures CodeOk(Resolve(h, b))
  {
    StraightInsns(h, b, b);
    var c := Resolve(h, b);
    forall q | 0 <= q < |c.insns| && c.insns[q].Plain? ensures c.insns[q].targets == [] {
      assert c.insns[q] in ResolveInsns(h, b, b);
    }
  }

  /** A forwarding method jumps to its return instruction. */
  lemma {:induction false} ForwardIsOk(h: string, name: string)
    ensures CodeOk(Resolve(h, RenameEvents(HELPER_NAME, OBJECT, Forward(name))))
  {
    hide RenameDesc, RenameType;
    var b := RenameEvents(HELPER_NAME, OBJECT, Forward(name));
    var c := Resolve(h, b);
    assert |b| == 7;
    forall i | 0 <= i < 7 ensures b[i] == RenameEvent(HELPER_NAME, OBJECT, Forward(name)[i]) {
    }
    ForwardSize(h, b);
  }

  /** Resolving from the `i`-th event on. */
  lemma {:induction false} ResolveFrom(h: string, b: seq<Event>, i: nat, l: Label)
    requires i < |b|
    ensures ResolveInsns(h, b, b[i..]) ==
            (if b[i].IsInsn() then [ResolveInsn(h, b, b[i])] else []) + ResolveInsns(h, b, b[i + 1..])
    ensures ResolveTable(b, b[i..]) == ResolveRange(b, b[i]) + ResolveTable(b, b[i + 1..])
    ensures LabelPos(b[i..], l) ==
            if b[i] == VisitLabel(l) then 0 else (if b[i].IsInsn() then 1 else 0) + LabelPos(b[i + 1..], l)
  {
    assert b[i..][1..] == b[i + 1..];
  }

  lemma {:induction false} ResolveNothing(h: string, b: seq<Event>)
    ensures ResolveInsns(h, b, []) == [] && ResolveTable(b, []) == []
  {}

  /** Bodies of the same shape as a forwarding method. */
  predicate ForwardShape(b: seq<Event>) {
    && |b| == 7 && b[0].VisitFieldInsn? && b[1].VisitOther? && b[1].labels == [0] && b[2].VisitMethodInsn?
    && b[3] == VisitLabel(0) && b[4].VisitFrame? && b[5] == VisitInsn(RETURN) && b[6].VisitMaxs?
  }

  lemma {:induction false} ForwardResolved(h: string, b: seq<Event>)
    requires ForwardShape(b)
    ensures LabelPos(b, 0) == 3 && ResolveTable(b, b) == []
    ensures ResolveInsns(h, b, b) ==
        [ResolveInsn(h, b, b[0]), ResolveInsn(h, b, b[1]), ResolveInsn(h, b, b[2]), ResolveInsn(h, b, b[5])]
  {
    hide ResolveInsns, ResolveTable, LabelPos, ResolveInsn;
    ResolveNothing(h, b);
    assert b[7..] == [] && b[0..] == b;
    ResolveFrom(h, b, 6, 0);
    ResolveFrom(h, b, 5, 0);
    ResolveFrom(h, b, 4, 0);
    ResolveFrom(h, b, 3, 0);
    ResolveFrom(h, b, 2, 0);
    ResolveFrom(h, b, 1, 0);
    ResolveFrom(h, b, 0, 0);
  }

  lemma {:induction false} ForwardSize(h: string, b: seq<Event>)
    requires ForwardShape(b)
    ensures CodeOk(Resolve(h, b))
  {
    hide ResolveInsns, ResolveTable, LabelPos, ResolveInsn, ResolveFrames, ResolveMaxs;
    ForwardResolved(h, b);
    ForwardInsns(h, b);
  }

  lemma {:induction false} ForwardInsns(h: string, b: seq<Event>)
    requires ForwardShape(b)
    ensures forall i :: i in {0, 2, 5} && ResolveInsn(h, b, b[i]).Plain? ==> ResolveInsn(h, b, b[i]).targets == []
    ensures ResolveInsn(h, b, b[1]).targets == [LabelPos(b, 0)]
  {
    assert LabelPositions(b, [0]) == [LabelPos(b, 0)];
  }

  // ---------------------------------------------------------------- the methods of the least program

  lemma {:induction false} OwnedBody(owner: string, ms: seq<Method>, m: MethodId)
    requires m in ClassMethods(owner, ms)
    ensures exists j :: 0 <= j < |ms| && ms[j].body == ClassMethods(owner, ms)[m]
  {
    if m == MethodId(owner, ms[0].name, ms[0].desc) {
      assert ms[0].body == ClassMethods(owner, ms)[m];
    } else {
      OwnedBody(owner, ms[1..], m);
      var j :| 0 <= j < |ms[1..]| && ms[1..][j].body == ClassMethods(owner, ms[1..])[m];
      assert ms[j + 1].body == ClassMethods(owner, ms)[m];
    }
  }

  /** Every method of a program is a method of one of its classes. */
  lemma {:induction false} BodyOf(cs: seq<ClassFile>, m: MethodId) returns (n: Node)
    requires m in MethodsOf(cs)
    ensures IsNode(cs, n) && MethodOf(cs, n).body == MethodsOf(cs)[m]
  {
    var first := ClassMethods(cs[0].name, cs[0].methods);
    if m in first {
      OwnedBody(cs[0].name, cs[0].methods, m);
      var j :| 0 <= j < |cs[0].methods| && cs[0].methods[j].body == first[m];
      n := Node(0, j);
    } else {
      var k := BodyOf(cs[1..], m);
      n := Node(k.cls + 1, k.index);
    }
  }

  lemma {:induction false} PlainBodiesAreStraight(counter: string, native: string)
    ensures Straight(CONSTRUCTOR.body) && Straight(COUNTER_BODY) && Straight(COUNTERS) && Straight([])
    ensures Straight(CountAndForward(counter, native)) && Straight(ReadCounter(counter))
    ensures Straight(OBJECT_CLASS.methods[0].body)
  {}

  lemma {:induction false} RenamedIsStraight(b: seq<Event>)
    requires Straight(b)
    ensures Straight(RenameEvents(HELPER_NAME, OBJECT, b))
  {
    var r := RenameEvents(HELPER_NAME, OBJECT, b);
    forall e | e in r ensures !e.VisitTryCatch? && (e.VisitOther? ==> e.labels == []) {
      var i :| 0 <= i < |r| && r[i] == e;
      assert b[i] in b;
    }
  }

  lemma {:induction false} GraftIsOk(h: string, m: Method)
    requires m in AddedMethods(OBJECT, [ObjectAmendment()])
    ensures CodeOk(Resolve(h, m.body))
  {
    hide CodeOk, Resolve;
    var methods := RenameClass(HELPER_NAME, HELPER, OBJECT).methods;
    AmendmentAlone(ObjectAmendment());
    PrefixedFrom(PREFIX, methods, m);
    var i :| 0 <= i < |methods| && methods[i] == m;
    assert m == RenameMethod(HELPER_NAME, OBJECT, HELPER.methods[i]);
    PlainBodiesAreStraight(ENTER_COUNTER, NATIVE_ENTER);
    if i < 2 {
      RenamedIsStraight(HELPER.methods[i].body);
      StraightIsOk(h, m.body);
    } else {
      ForwardIsOk(h, HELPER.methods[i].name);
    }
  }

  lemma {:induction false} LeastBodyIsOk(h: string, n: Node)
    requires IsNode(Grafted([ObjectAmendment()], {}, LEAST_PROGRAM), n)
    ensures CodeOk(Resolve(h, MethodOf(Grafted([ObjectAmendment()], {}, LEAST_PROGRAM), n).body))
  {
    hide CodeOk, Resolve, Straight;
    var before := Grafted([ObjectAmendment()], {}, LEAST_PROGRAM);
    var m := MethodOf(before, n);
    EventsIsRuntime();
    PlainBodiesAreStraight(ENTER_COUNTER, NATIVE_ENTER);
    PlainBodiesAreStraight(EXIT_COUNTER, NATIVE_EXIT);
    if n.cls == 0 && m !in OBJECT_CLASS.methods {
      GraftIsOk(h, m);
    } else {
      if n.cls == 2 {
        CounterIsNoObject();
        AddedOnlyTo(ObjectAmendment(), COUNTER_NAME);
      }
      assert m in LEAST_PROGRAM[n.cls].methods;
      StraightIsOk(h, m.body);
    }
  }

  lemma {:induction false} CounterIsNoObject()
    ensures COUNTER_NAME != OBJECT
  {
    assert |COUNTER_NAME| == 41 && |OBJECT| == 16;
  }

  /** The least program with the agent meets the condition of the run theorems. */
  lemma {:induction false} LeastProgramIsOk()
    ensures MethodsOk(OBJECT, MethodsOf(Grafted([ObjectAmendment()], {}, LEAST_PROGRAM)))
  {
    hide CodeOk, Resolve, Grafted;
    var before := Grafted([ObjectAmendment()], {}, LEAST_PROGRAM);
    forall m | m in MethodsOf(before)
      ensures NoHandlerCalls(OBJECT, MethodsOf(before)[m]) && CodeOk(Resolve(OBJECT, MethodsOf(before)[m]))
    {
      var n := BodyOf(before, m);
      LeastIsClean(n);
      LeastBodyIsOk(OBJECT, n);
    }
  }

  /** So its loaded and its uninstrumented form have the same runs. */
  lemma {:induction false} LeastProgramRunsTheSame(sem: Semantics, steps: seq<(Tid, int)>, s: State)
    requires Initial(MethodsOf(Grafted([ObjectAmendment()], {}, LEAST_PROGRAM)), s)
    ensures var p := ProgramOf(OBJECT, Loaded(OBJECT, [ObjectAmendment()], {}, LEAST_PROGRAM));
            var o := ProgramOf(OBJECT, Grafted([ObjectAmendment()], {}, LEAST_PROGRAM));
            Run(sem, o, steps, s).Some? <==> exists ls :: Schedule(ls) == steps && SysRun(sem, p, ls, Boot(s)).Some?
  {
    LeastProgramIsOk();
    LoadedClassesRunTheSame(sem, OBJECT, [ObjectAmendment()], {}, LEAST_PROGRAM, steps, s);
  }
}

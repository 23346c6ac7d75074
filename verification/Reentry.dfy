/**
  Event handling does not start over: following calls from the handler through the classes as they are loaded, no
  inserted call is reached again. Calls are resolved by owner, name and descriptor; which classes' declarations a
  call that names an owner may run (inheritance, overriding) is a parameter, so the results hold however that is.
  Using a class may also run static initializers, its own and those of its superclasses; which ones is a parameter
  too.
 */
module Reentry {
  import opened Bytecode
  import opened InsertedCalls
  import opened ClassFiles
  import opened Linking
  import opened HandlerClasses

  /** How classes hang together: whether a call that names the first class may run a method declared in the second, and
      whether using the first class may initialize the second (itself, its superclasses, or interfaces). */
  datatype Linkage = Linkage(runs: (string, string) -> bool, initializes: (string, string) -> bool)

  /** A method of a program, by the index of its class and its index there. */
  datatype Node = Node(cls: nat, index: nat)

  predicate IsNode(cs: seq<ClassFile>, n: Node) {
    n.cls < |cs| && n.index < |cs[n.cls].methods|
  }

  function MethodOf(cs: seq<ClassFile>, n: Node): Method
    requires IsNode(cs, n)
  {
    cs[n.cls].methods[n.index]
  }

  /** The event uses a class, which may have to be initialized. */
  predicate UsesClass(e: Event) {
    e.VisitMethodInsn? || e.VisitFieldInsn? || (e.VisitTypeInsn? && e.opcode == NEW)
  }

  function UsedClass(e: Event): string
    requires UsesClass(e)
  {
    if e.VisitTypeInsn? then e.ty else e.owner
  }

  predicate MayRun(d: Linkage, e: Event, cls: string, m: Method) {
    || (e.VisitMethodInsn? && e.name == m.name && e.desc == m.desc && d.runs(e.owner, cls))
    || (m.name == CLINIT && UsesClass(e) && d.initializes(UsedClass(e), cls))
  }

  predicate Edge(d: Linkage, cs: seq<ClassFile>, a: Node, b: Node) {
    && IsNode(cs, a) && IsNode(cs, b)
    && exists k :: 0 <= k < |MethodOf(cs, a).body|
        && MayRun(d, MethodOf(cs, a).body[k], cs[b.cls].name, MethodOf(cs, b))
  }

  /** A method that an inserted call may run. */
  predicate IsEntry(d: Linkage, h: string, cs: seq<ClassFile>, n: Node) {
    && IsNode(cs, n)
    && (MayRun(d, HandlerCall(h, Enter), cs[n.cls].name, MethodOf(cs, n)) ||
        MayRun(d, HandlerCall(h, Exit), cs[n.cls].name, MethodOf(cs, n)))
  }

  predicate IsPath(d: Linkage, h: string, cs: seq<ClassFile>, p: seq<Node>) {
    && p != [] && IsEntry(d, h, cs, p[0])
    && (forall i :: 0 <= i < |p| ==> IsNode(cs, p[i]))
    && forall i :: 0 < i < |p| ==> Edge(d, cs, p[i - 1], p[i])
  }

  /** A method that may run while an event is being handled. */
  ghost predicate Reachable(d: Linkage, h: string, cs: seq<ClassFile>, n: Node) {
    exists p: seq<Node> :: IsPath(d, h, cs, p) && p[|p| - 1] == n
  }

  /** No call will be inserted into the method. */
  predicate Clean(rejected: set<string>, cs: seq<ClassFile>, n: Node) {
    IsNode(cs, n) ==> Skipped(rejected, cs[n.cls].name) || MonitorFree(MethodOf(cs, n).body)
  }

  predicate CallsHandler(h: string, cs: seq<ClassFile>, n: Node) {
    IsNode(cs, n) && !NoHandlerCalls(h, MethodOf(cs, n).body)
  }

  // ---------------------------------------------------------------- the two call graphs

  /** The same methods before and after loading, with calls inserted. */
  lemma {:induction false} SameNode(h: string, ams: seq<AmendmentData>, rejected: set<string>, cs: seq<ClassFile>,
          n: Node)
    ensures var before, after := Grafted(ams, rejected, cs), Loaded(h, ams, rejected, cs);
            && (IsNode(before, n) <==> IsNode(after, n))
            && (IsNode(before, n) ==>
                  && after[n.cls].name == before[n.cls].name
                  && MethodOf(after, n) == if Skipped(rejected, before[n.cls].name) then MethodOf(before, n)
                                           else InstrumentMethod(h, MethodOf(before, n)))
  {
    if n.cls < |cs| { LoadedIsInstrumented(h, ams, rejected, cs, n.cls); }
  }

  lemma {:induction false} EventsStay(h: string, es: seq<Event>, e: Event)
    requires e in es
    ensures e in InstrumentEvents(h, es)
  {
    assert e in InstrumentEvent(h, e);
    if e == es[0] {
      assert e in InstrumentEvent(h, es[0]);
    } else {
      EventsStay(h, es[1..], e);
    }
  }

  lemma {:induction false} EdgeStays(d: Linkage, h: string, ams: seq<AmendmentData>, rejected: set<string>,
          cs: seq<ClassFile>, a: Node, b: Node)
    requires Edge(d, Grafted(ams, rejected, cs), a, b)
    ensures Edge(d, Loaded(h, ams, rejected, cs), a, b)
  {
    var before, after := Grafted(ams, rejected, cs), Loaded(h, ams, rejected, cs);
    SameNode(h, ams, rejected, cs, a);
    SameNode(h, ams, rejected, cs, b);
    var body, body' := MethodOf(before, a).body, MethodOf(after, a).body;
    var k :| 0 <= k < |body| && MayRun(d, body[k], before[b.cls].name, MethodOf(before, b));
    EventsStay(h, body, body[k]);
    var j :| 0 <= j < |body'| && body'[j] == body[k];
    assert MayRun(d, body'[j], after[b.cls].name, MethodOf(after, b));
  }

  /** A method without inserted calls calls what it called before. */
  lemma {:induction false} CleanEdge(d: Linkage, h: string, ams: seq<AmendmentData>, rejected: set<string>,
          cs: seq<ClassFile>, a: Node, b: Node)
    requires Edge(d, Loaded(h, ams, rejected, cs), a, b) && Clean(rejected, Grafted(ams, rejected, cs), a)
    ensures Edge(d, Grafted(ams, rejected, cs), a, b)
  {
    var before, after := Grafted(ams, rejected, cs), Loaded(h, ams, rejected, cs);
    SameNode(h, ams, rejected, cs, a);
    SameNode(h, ams, rejected, cs, b);
    InstrumentGrows(h, MethodOf(before, a).body);
    var body := MethodOf(before, a).body;
    var k :| 0 <= k < |body| && MayRun(d, body[k], after[b.cls].name, MethodOf(after, b));
    assert MayRun(d, body[k], before[b.cls].name, MethodOf(before, b));
  }

  lemma {:induction false} SameEntry(d: Linkage, h: string, ams: seq<AmendmentData>, rejected: set<string>,
          cs: seq<ClassFile>, n: Node)
    ensures IsEntry(d, h, Grafted(ams, rejected, cs), n) <==> IsEntry(d, h, Loaded(h, ams, rejected, cs), n)
  {
    SameNode(h, ams, rejected, cs, n);
  }

  lemma {:induction false} PathStays(d: Linkage, h: string, ams: seq<AmendmentData>, rejected: set<string>,
          cs: seq<ClassFile>, p: seq<Node>)
    requires IsPath(d, h, Grafted(ams, rejected, cs), p)
    ensures IsPath(d, h, Loaded(h, ams, rejected, cs), p)
  {
    hide Edge, IsEntry;
    SameEntry(d, h, ams, rejected, cs, p[0]);
    forall i | 0 <= i < |p| ensures IsNode(Loaded(h, ams, rejected, cs), p[i]) {
      SameNode(h, ams, rejected, cs, p[i]);
    }
    forall i | 0 < i < |p| ensures Edge(d, Loaded(h, ams, rejected, cs), p[i - 1], p[i]) {
      EdgeStays(d, h, ams, rejected, cs, p[i - 1], p[i]);
    }
  }

  ghost predicate AllClean(d: Linkage, h: string, rejected: set<string>, before: seq<ClassFile>) {
    forall n :: Reachable(d, h, before, n) ==> Clean(rejected, before, n)
  }

  lemma {:induction false} PathPrefix(d: Linkage, h: string, cs: seq<ClassFile>, p: seq<Node>)
    requires IsPath(d, h, cs, p) && |p| > 1
    ensures IsPath(d, h, cs, p[..|p| - 1])
  {
    hide IsEntry, Edge;
    var q := p[..|p| - 1];
    assert q[0] == p[0];
    forall i | 0 < i < |q| ensures Edge(d, cs, q[i - 1], q[i]) {
      assert q[i - 1] == p[i - 1] && q[i] == p[i];
    }
  }

  lemma {:induction false} PathExtends(d: Linkage, h: string, cs: seq<ClassFile>, p: seq<Node>, n: Node)
    requires IsPath(d, h, cs, p) && Edge(d, cs, p[|p| - 1], n)
    ensures IsPath(d, h, cs, p + [n])
  {
    hide IsEntry;
    var q := p + [n];
    assert q[0] == p[0];
    assert IsNode(cs, n);
    forall i | 0 < i < |q| ensures Edge(d, cs, q[i - 1], q[i]) {
      if i < |p| { assert q[i - 1] == p[i - 1] && q[i] == p[i]; }
    }
  }

  /** If everything reachable before is clean, loading makes nothing else reachable. */
  lemma {:induction false} CleanPath(d: Linkage, h: string, ams: seq<AmendmentData>, rejected: set<string>,
          cs: seq<ClassFile>, p: seq<Node>)
    requires AllClean(d, h, rejected, Grafted(ams, rejected, cs)) && IsPath(d, h, Loaded(h, ams, rejected, cs), p)
    ensures IsPath(d, h, Grafted(ams, rejected, cs), p)
    decreases |p|
  {
    hide Edge, IsEntry, Clean;
    var before := Grafted(ams, rejected, cs);
    var n := |p| - 1;
    if n == 0 {
      SameEntry(d, h, ams, rejected, cs, p[0]);
      SameNode(h, ams, rejected, cs, p[0]);
    } else {
      PathPrefix(d, h, Loaded(h, ams, rejected, cs), p);
      CleanPath(d, h, ams, rejected, cs, p[..n]);
      assert p[..n][n - 1] == p[n - 1];
      CleanEdge(d, h, ams, rejected, cs, p[n - 1], p[n]);
      PathExtends(d, h, before, p[..n], p[n]);
      assert p[..n] + [p[n]] == p;
    }
  }

  // ---------------------------------------------------------------- no re-entry

  ghost predicate HandlerNotReached(d: Linkage, h: string, cs: seq<ClassFile>) {
    forall n :: Reachable(d, h, cs, n) ==> !CallsHandler(h, cs, n)
  }

  /** In a program in which no method calls the handler by itself: no method that may run during the handling of an
      event calls the handler in turn, exactly when each method that could run then before any call was inserted is of
      a skipped class or has no monitor instructions. */
  lemma {:induction false} NoReentry(d: Linkage, h: string, ams: seq<AmendmentData>, rejected: set<string>,
          cs: seq<ClassFile>)
    requires forall n :: !CallsHandler(h, Grafted(ams, rejected, cs), n)
    ensures HandlerNotReached(d, h, Loaded(h, ams, rejected, cs)) <==>
            AllClean(d, h, rejected, Grafted(ams, rejected, cs))
  {
    var before, after := Grafted(ams, rejected, cs), Loaded(h, ams, rejected, cs);
    forall n ensures CallsHandler(h, after, n) <==> !Clean(rejected, before, n) {
      CallsIffUnclean(h, ams, rejected, cs, n);
    }
    forall n | Reachable(d, h, before, n) ensures Reachable(d, h, after, n) {
      var p :| IsPath(d, h, before, p) && p[|p| - 1] == n;
      PathStays(d, h, ams, rejected, cs, p);
    }
    if AllClean(d, h, rejected, before) {
      forall n | Reachable(d, h, after, n) ensures Reachable(d, h, before, n) {
        var p :| IsPath(d, h, after, p) && p[|p| - 1] == n;
        CleanPath(d, h, ams, rejected, cs, p);
      }
    }
  }

  lemma {:induction false} CallsIffUnclean(h: string, ams: seq<AmendmentData>, rejected: set<string>,
          cs: seq<ClassFile>, n: Node)
    requires !CallsHandler(h, Grafted(ams, rejected, cs), n)
    ensures CallsHandler(h, Loaded(h, ams, rejected, cs), n) <==> !Clean(rejected, Grafted(ams, rejected, cs), n)
  {
    var before := Grafted(ams, rejected, cs);
    SameNode(h, ams, rejected, cs, n);
    if IsNode(before, n) { CallsInsertedIff(h, MethodOf(before, n).body); }
  }

  // ---------------------------------------------------------------- the agent's own handler

  /** The bodies that run when an event is handled: the two grafted methods, the methods of ApplicationEvents behind
      them, its native methods and its static initializer. */
  function AgentBodies(): seq<seq<Event>> {
    [RenameEvents(HELPER_NAME, OBJECT, Forward(ENTER_NAME)), RenameEvents(HELPER_NAME, OBJECT, Forward(EXIT_NAME)),
     CountAndForward(ENTER_COUNTER, NATIVE_ENTER), CountAndForward(EXIT_COUNTER, NATIVE_EXIT), [], COUNTERS]
  }

  predicate IsAgentCode(cs: seq<ClassFile>, n: Node) {
    IsNode(cs, n) && MethodOf(cs, n).body in AgentBodies()
  }

  /** Somebody else's method that one of those bodies may run. */
  predicate Leaves(d: Linkage, cs: seq<ClassFile>, n: Node) {
    && IsNode(cs, n) && !IsAgentCode(cs, n)
    && exists i, k :: 0 <= i < |AgentBodies()| && 0 <= k < |AgentBodies()[i]|
                      && MayRun(d, AgentBodies()[i][k], cs[n.cls].name, MethodOf(cs, n))
  }

  lemma {:induction false} AgentBodiesAreMonitorFree(b: seq<Event>)
    requires b in AgentBodies()
    ensures MonitorFree(b)
  {
    ForwardIsMonitorFree(ENTER_NAME);
    ForwardIsMonitorFree(EXIT_NAME);
  }

  lemma {:induction false} ForwardIsMonitorFree(name: string)
    ensures MonitorFree(RenameEvents(HELPER_NAME, OBJECT, Forward(name)))
  {
    forall e | e in RenameEvents(HELPER_NAME, OBJECT, Forward(name)) ensures !e.VisitInsn? || e.opcode == RETURN {
      var was := Forward(name);
      var i :| 0 <= i < |was| && RenameEvent(HELPER_NAME, OBJECT, was[i]) == e;
    }
  }

  /** The grafted handler methods are agent code, and nothing else is grafted under their names. */
  lemma {:induction false} GraftedIsAgentCode(m: Method)
    requires m in AddedMethods(OBJECT, [ObjectAmendment()]) && (m.name == ENTER_NAME || m.name == EXIT_NAME)
    ensures m.body in AgentBodies()
  {
    var methods := RenameClass(HELPER_NAME, HELPER, OBJECT).methods;
    AmendmentAlone(ObjectAmendment());
    PrefixedFrom(PREFIX, methods, m);
    var i :| 0 <= i < |methods| && methods[i] == m;
    assert m == RenameMethod(HELPER_NAME, OBJECT, HELPER.methods[i]);
    HandlerNamesDiffer();
  }

  lemma {:induction false} HandlerNamesDiffer()
    ensures ENTER_NAME != EXIT_NAME && ENABLE_NAME != ENTER_NAME && ENABLE_NAME != EXIT_NAME && INIT != ENTER_NAME
        && INIT != EXIT_NAME
  {
    assert |ENTER_NAME| == 29 && |EXIT_NAME| == 28 && |ENABLE_NAME| == 38 && |INIT| == 6;
  }

  lemma {:induction false} EventsMethodsAreAgentCode(m: Method)
    requires m in APPLICATION_EVENTS.methods && (m.name == ENTER_NAME || m.name == EXIT_NAME)
    ensures m.body in AgentBodies()
  {
    HandlerNamesDiffer();
    assert |NATIVE_ENTER| == 12 && |NATIVE_EXIT| == 11 && |"numMonitorEnterEvents"| == 21
        && |"numMonitorExitEvents"| == 20 && |CLINIT| == 8;
  }

  /** What an inserted call may run is agent code, or the static initializer of `java/lang/Object`, if no other class
      of the program declares methods under the two names. */
  lemma {:induction false} EntriesAreAgentCode(d: Linkage, rejected: set<string>, cs: seq<ClassFile>, n: Node)
    requires forall i, m :: 0 <= i < |cs| && m in cs[i].methods && (m.name == ENTER_NAME || m.name == EXIT_NAME) ==>
          cs[i] == APPLICATION_EVENTS
    requires IsEntry(d, OBJECT, Grafted([ObjectAmendment()], rejected, cs), n)
    ensures var before := Grafted([ObjectAmendment()], rejected, cs);
            IsAgentCode(before, n) || (MethodOf(before, n).name == CLINIT && d.initializes(OBJECT, before[n.cls].name))
  {
    hide AgentBodies;
    var before := Grafted([ObjectAmendment()], rejected, cs);
    var m := MethodOf(before, n);
    if m.name == ENTER_NAME || m.name == EXIT_NAME {
      if m in cs[n.cls].methods {
        EventsMethodsAreAgentCode(m);
      } else {
        AddedOnlyTo(ObjectAmendment(), cs[n.cls].name);
        GraftedIsAgentCode(m);
      }
    }
  }

  lemma {:induction false} AddedOnlyTo(am: AmendmentData, name: string)
    ensures name != am.classToAmend ==> AddedMethods(name, [am]) == []
  {
    assert [am][1..] == [];
  }

  /** The only calls in agent code are of ApplicationEvents and of the counters it uses. */
  lemma {:induction false} AgentCalls(b: seq<Event>, e: Event)
    requires b in AgentBodies() && e in b && e.VisitMethodInsn?
    ensures e.owner == EVENTS_NAME || (e.owner == COUNTER_NAME && (e.name == INIT || e.name == "incrementAndGet"))
  {
    ForwardCalls(ENTER_NAME, e);
    ForwardCalls(EXIT_NAME, e);
  }

  lemma {:induction false} ForwardCalls(name: string, e: Event)
    ensures e in RenameEvents(HELPER_NAME, OBJECT, Forward(name)) && e.VisitMethodInsn? ==> e.owner == EVENTS_NAME
  {
    NamesDiffer();
    var was := Forward(name);
    if e in RenameEvents(HELPER_NAME, OBJECT, was) && e.VisitMethodInsn? {
      var i :| 0 <= i < |was| && RenameEvent(HELPER_NAME, OBJECT, was[i]) == e;
      assert i == 2;
      assert EVENTS_NAME[0] == 'p';
    }
  }

  /** If calls run the methods of the class they name, agent code leads only to ApplicationEvents and the counters,
      apart from static initializers. */
  lemma {:induction false} LeavesToCounters(d: Linkage, cs: seq<ClassFile>, n: Node)
    requires forall a, b :: d.runs(a, b) ==> a == b
    requires Leaves(d, cs, n)
    ensures cs[n.cls].name == EVENTS_NAME || cs[n.cls].name == COUNTER_NAME || MethodOf(cs, n).name == CLINIT
  {
    hide AgentBodies;
    var i, k :| 0 <= i < |AgentBodies()| && 0 <= k < |AgentBodies()[i]|
        && MayRun(d, AgentBodies()[i][k], cs[n.cls].name, MethodOf(cs, n));
    var b := AgentBodies()[i];
    if b[k].VisitMethodInsn? { AgentCalls(b, b[k]); }
  }

  /** Which events use a class, so that it may have to be initialized (section 5.5 of the Java Virtual Machine
      Specification): calls, field accesses and NEW; a static initializer runs by no other name. */
  lemma {:induction false} UseRuns(d: Linkage, e: Event, cls: string, m: Method)
    requires m.name == "<clinit>"
    ensures e.VisitMethodInsn? || e.VisitFieldInsn? ==> (d.initializes(e.owner, cls) ==> MayRun(d, e, cls, m))
    ensures e.VisitTypeInsn? ==> (MayRun(d, e, cls, m) <==> e.opcode == 187 && d.initializes(e.ty, cls))
    ensures e.VisitInsn? || e.VisitOther? || e.VisitLabel? || e.VisitFrame? ==> !MayRun(d, e, cls, m)
  {}

  /** Where a path from an inserted call can be: in agent code, or in the methods `others`. */
  lemma {:induction false} StaysInside(d: Linkage, cs: seq<ClassFile>, others: Node -> bool, p: seq<Node>)
    requires IsPath(d, OBJECT, cs, p)
    requires forall n :: IsEntry(d, OBJECT, cs, n) || Leaves(d, cs, n) ==> IsAgentCode(cs, n) || others(n)
    requires forall a, b :: others(a) && Edge(d, cs, a, b) ==> IsAgentCode(cs, b) || others(b)
    ensures IsAgentCode(cs, p[|p| - 1]) || others(p[|p| - 1])
    decreases |p|
  {
    hide IsEntry, Leaves, Edge, IsAgentCode;
    var n := |p| - 1;
    if n == 0 {
    } else {
      PathPrefix(d, OBJECT, cs, p);
      StaysInside(d, cs, others, p[..n]);
      assert p[..n][n - 1] == p[n - 1];
      if IsAgentCode(cs, p[n - 1]) { AgentEdge(d, cs, p[n - 1], p[n]); }
    }
  }

  lemma {:induction false} AgentEdge(d: Linkage, cs: seq<ClassFile>, a: Node, b: Node)
    requires IsAgentCode(cs, a) && Edge(d, cs, a, b)
    ensures IsAgentCode(cs, b) || Leaves(d, cs, b)
  {
    var body := MethodOf(cs, a).body;
    var i :| 0 <= i < |AgentBodies()| && AgentBodies()[i] == body;
    var k :| 0 <= k < |body| && MayRun(d, body[k], cs[b.cls].name, MethodOf(cs, b));
    assert MayRun(d, AgentBodies()[i][k], cs[b.cls].name, MethodOf(cs, b));
  }

  /** The handler of this agent. If the calls that are inserted, and those that agent code makes elsewhere, only run
      agent code or methods `others` which stay among themselves and agent code and are free of monitor instructions
      or skipped, then no inserted call leads to another inserted call. */
  lemma {:induction false} AgentDoesNotReenter(d: Linkage, rejected: set<string>, cs: seq<ClassFile>,
          others: Node -> bool)
    requires var before := Grafted([ObjectAmendment()], rejected, cs);
             && (forall n :: !CallsHandler(OBJECT, before, n))
             && (forall n :: IsEntry(d, OBJECT, before, n) || Leaves(d, before, n) ==>
                   IsAgentCode(before, n) || others(n))
             && (forall a, b :: others(a) && Edge(d, before, a, b) ==> IsAgentCode(before, b) || others(b))
             && (forall n :: others(n) ==> Clean(rejected, before, n))
    ensures HandlerNotReached(d, OBJECT, Loaded(OBJECT, [ObjectAmendment()], rejected, cs))
  {
    hide IsEntry, Leaves, Edge, AgentBodies;
    var before := Grafted([ObjectAmendment()], rejected, cs);
    forall n | Reachable(d, OBJECT, before, n) ensures Clean(rejected, before, n) {
      var p: seq<Node> :| IsPath(d, OBJECT, before, p) && p[|p| - 1] == n;
      StaysInside(d, before, others, p);
      if IsAgentCode(before, n) { AgentBodiesAreMonitorFree(MethodOf(before, n).body); }
    }
    NoReentry(d, OBJECT, [ObjectAmendment()], rejected, cs);
  }

  // ---------------------------------------------------------------- the least program with the agent

  /** `java/lang/Object` and the counter class, reduced to what handling an event needs of them. */
  const OBJECT_CLASS := ClassFile(OBJECT, "", [], [Method(1, INIT, VOID_DESC, [VisitInsn(RETURN), VisitMaxs(0, 1)])])
  const COUNTER_BODY: seq<Event> :=
    [VisitOther(ALOAD, [0], []), VisitInsn(ICONST_1), VisitInsn(IRETURN), VisitMaxs(2, 2)]
  const COUNTER_CLASS :=
    ClassFile(COUNTER_NAME, OBJECT, [],
      [Method(1, INIT, "(I)V", CONSTRUCTOR.body), Method(17, "incrementAndGet", "()I", COUNTER_BODY),
       Method(17, "get", "()I", COUNTER_BODY)])
  const LEAST_PROGRAM := [OBJECT_CLASS, APPLICATION_EVENTS, COUNTER_CLASS]

  lemma {:induction false} EnableIsMonitorFree()
    ensures MonitorFree(RenameEvents(HELPER_NAME, OBJECT, ENABLE))
  {
    forall e | e in RenameEvents(HELPER_NAME, OBJECT, ENABLE) ensures !e.VisitInsn? || e.opcode in {RETURN, ICONST_1} {
      var i :| 0 <= i < |ENABLE| && RenameEvent(HELPER_NAME, OBJECT, ENABLE[i]) == e;
    }
  }

  lemma {:induction false} ConstructorRenamed()
    ensures MonitorFree(RenameEvents(HELPER_NAME, OBJECT, CONSTRUCTOR.body))
  {
    forall e | e in RenameEvents(HELPER_NAME, OBJECT, CONSTRUCTOR.body) ensures !e.VisitInsn? || e.opcode == RETURN {
      var was := CONSTRUCTOR.body;
      var i :| 0 <= i < |was| && RenameEvent(HELPER_NAME, OBJECT, was[i]) == e;
    }
  }

  /** Everything that is grafted onto `java/lang/Object` is free of monitor instructions, so it is copied verbatim. */
  lemma {:induction false} GraftIsMonitorFree(m: Method)
    requires m in AddedMethods(OBJECT, [ObjectAmendment()])
    ensures MonitorFree(m.body)
  {
    var methods := RenameClass(HELPER_NAME, HELPER, OBJECT).methods;
    AmendmentAlone(ObjectAmendment());
    PrefixedFrom(PREFIX, methods, m);
    var i :| 0 <= i < |methods| && methods[i] == m;
    assert m == RenameMethod(HELPER_NAME, OBJECT, HELPER.methods[i]);
    EnableIsMonitorFree();
    ConstructorRenamed();
    ForwardIsMonitorFree(ENTER_NAME);
    ForwardIsMonitorFree(EXIT_NAME);
  }

  /** The agent's amendment of `java/lang/Object` is written unchanged. */
  lemma {:induction false} ObjectGraftIsVerbatim(h: string)
    ensures InstrumentMethods(h, AddedMethods(OBJECT, [ObjectAmendment()])) == AddedMethods(OBJECT, [ObjectAmendment()])
  {
    AmendmentVerbatim(h, OBJECT, [ObjectAmendment()]);
    forall m | m in AddedMethods(OBJECT, [ObjectAmendment()]) ensures MonitorFree(m.body) {
      GraftIsMonitorFree(m);
    }
  }

  /** Calls other than of the prefixed methods of `java/lang/Object`. */
  predicate CallsElsewhere(b: seq<Event>) {
    forall e :: e in b && e.VisitMethodInsn? ==> e.owner != OBJECT || e.name == INIT
  }

  lemma {:induction false} ElsewhereIsNoHandler(b: seq<Event>)
    requires CallsElsewhere(b)
    ensures NoHandlerCalls(OBJECT, b)
  {
    HandlerNamesDiffer();
  }

  lemma {:induction false} PlainBodiesCallElsewhere(counter: string, native: string)
    ensures CallsElsewhere(CONSTRUCTOR.body) && CallsElsewhere(COUNTER_BODY) && CallsElsewhere(COUNTERS)
    ensures CallsElsewhere(CountAndForward(counter, native)) && CallsElsewhere(ReadCounter(counter))
  {
    NamesDiffer();
    assert |COUNTER_NAME| == 41;
  }

  lemma {:induction false} GraftCallsElsewhere(m: Method)
    requires m in AddedMethods(OBJECT, [ObjectAmendment()])
    ensures CallsElsewhere(m.body)
  {
    var methods := RenameClass(HELPER_NAME, HELPER, OBJECT).methods;
    AmendmentAlone(ObjectAmendment());
    PrefixedFrom(PREFIX, methods, m);
    ConstructorNotPrefixed();
    var i :| 0 <= i < |methods| && methods[i] == m;
    assert m == RenameMethod(HELPER_NAME, OBJECT, HELPER.methods[i]);
    RenamedCallElsewhere(ENTER_NAME);
    RenamedCallElsewhere(EXIT_NAME);
  }

  lemma {:induction false} RenamedCallElsewhere(name: string)
    ensures CallsElsewhere(RenameEvents(HELPER_NAME, OBJECT, Forward(name)))
    ensures CallsElsewhere(RenameEvents(HELPER_NAME, OBJECT, ENABLE))
  {
    NamesDiffer();
    forall e | e in RenameEvents(HELPER_NAME, OBJECT, Forward(name)) && e.VisitMethodInsn? ensures e.owner != OBJECT {
      ForwardCalls(name, e);
    }
    forall e | e in RenameEvents(HELPER_NAME, OBJECT, ENABLE) ensures !e.VisitMethodInsn? {
      var j :| 0 <= j < |ENABLE| && RenameEvent(HELPER_NAME, OBJECT, ENABLE[j]) == e;
    }
  }

  lemma {:induction false} EventsClassCallsElsewhere(m: Method)
    requires m in APPLICATION_EVENTS.methods
    ensures CallsElsewhere(m.body)
  {
    PlainBodiesCallElsewhere(ENTER_COUNTER, NATIVE_ENTER);
    PlainBodiesCallElsewhere(EXIT_COUNTER, NATIVE_EXIT);
  }

  lemma {:induction false} CounterClassIsClean(m: Method)
    requires m in COUNTER_CLASS.methods
    ensures CallsElsewhere(m.body) && MonitorFree(m.body)
  {
    PlainBodiesCallElsewhere(ENTER_COUNTER, NATIVE_ENTER);
  }

  lemma {:induction false} EventsIsRuntime()
    ensures IsRuntimeClass(EVENTS_NAME) && !IsRuntimeClass(OBJECT) && !IsRuntimeClass(COUNTER_NAME)
  {
    assert OBJECT[0] == 'j' && COUNTER_NAME[0] == 'j';
  }

  lemma {:induction false} LeastIsClean(n: Node)
    ensures var before := Grafted([ObjectAmendment()], {}, LEAST_PROGRAM);
            !CallsHandler(OBJECT, before, n) && Clean({}, before, n)
  {
    hide CallsElsewhere, MonitorFree, NoHandlerCalls;
    var before := Grafted([ObjectAmendment()], {}, LEAST_PROGRAM);
    EventsIsRuntime();
    if IsNode(before, n) {
      var m := MethodOf(before, n);
      if n.cls == 1 {
        EventsClassCallsElsewhere(m);
      } else if n.cls == 2 {
        NamesDiffer();
        assert |COUNTER_NAME| == 41;
        AddedOnlyTo(ObjectAmendment(), COUNTER_NAME);
        assert m in COUNTER_CLASS.methods;
        CounterClassIsClean(m);
      } else if m in OBJECT_CLASS.methods {
        ReturnIsClean();
      } else {
        GraftCallsElsewhere(m);
        GraftIsMonitorFree(m);
      }
      ElsewhereIsNoHandler(m.body);
    }
  }

  lemma {:induction false} ReturnIsClean()
    ensures CallsElsewhere(OBJECT_CLASS.methods[0].body) && MonitorFree(OBJECT_CLASS.methods[0].body)
  {}

  /** A program with nothing assumed: in it, whatever way calls dispatch, handling an event reaches no inserted call. */
  lemma {:induction false} LeastProgramDoesNotReenter(d: Linkage)
    ensures HandlerNotReached(d, OBJECT, Loaded(OBJECT, [ObjectAmendment()], {}, LEAST_PROGRAM))
  {
    forall n ensures !CallsHandler(OBJECT, Grafted([ObjectAmendment()], {}, LEAST_PROGRAM), n) {
      LeastIsClean(n);
    }
    forall n ensures Clean({}, Grafted([ObjectAmendment()], {}, LEAST_PROGRAM), n) {
      LeastIsClean(n);
    }
    NoReentry(d, OBJECT, [ObjectAmendment()], {}, LEAST_PROGRAM);
  }
}

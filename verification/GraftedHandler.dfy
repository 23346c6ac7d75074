/**
  What the agent grafts onto `java/lang/Object`, written out, and where the inserted calls lead: to the grafted method
  of the same name, from there to ApplicationEvents, and from there to the counter and the native method of that kind.
 */
module GraftedHandler {
  import opened Bytecode
  import opened InsertedCalls
  import opened ClassFiles
  import opened Linking
  import opened Renaming
  import opened HandlerClasses
  import opened Reentry

  /** `phasicj$agent$rt$enableInstrumentation` as it stands in the amended class. */
  function EnableMethod(): Method {
    Method(9, "phasicj$agent$rt$enableInstrumentation", "()V",
      [VisitInsn(4), VisitFieldInsn(179, "java/lang/Object", "phasicj$agent$rt$instrumentationIsEnabled", "Z"),
       VisitInsn(177), VisitMaxs(1, 0)])
  }

  /** A grafted handler method: read the flag of the amended class, return if it is not set, otherwise call the method
      of ApplicationEvents that has the same name. */
  function ForwardMethod(name: string): Method {
    Method(9, name, "()V",
      [VisitFieldInsn(178, "java/lang/Object", "phasicj$agent$rt$instrumentationIsEnabled", "Z"),
       VisitOther(153, [], [0]),
       VisitMethodInsn(184, "phasicj/agent/rt/ApplicationEvents", name, "()V", false),
       VisitLabel(0), VisitFrame([], []), VisitInsn(177), VisitMaxs(1, 0)])
  }

  lemma {:induction false} NamesRenamed()
    ensures RenameType(HELPER_NAME, OBJECT, HELPER_NAME) == "java/lang/Object"
    ensures RenameType(HELPER_NAME, OBJECT, EVENTS_NAME) == "phasicj/agent/rt/ApplicationEvents"
    ensures RenameDesc(HELPER_NAME, OBJECT, "Z") == "Z" && RenameDesc(HELPER_NAME, OBJECT, "()V") == "()V"
  {
    NamesDiffer();
    VoidDescRenamed();
    assert RenameDesc(HELPER_NAME, OBJECT, "") == "" && "Z"[1..] == "";
    assert EVENTS_NAME[0] == 'p' && HELPER_NAME[0] == 'p';
  }

  lemma {:induction false} ForwardRenamed(name: string)
    ensures RenameMethod(HELPER_NAME, OBJECT, Method(9, name, VOID_DESC, Forward(name))) == ForwardMethod(name)
  {
    hide RenameType, RenameDesc;
    NamesRenamed();
    var r := RenameEvents(HELPER_NAME, OBJECT, Forward(name));
    assert forall i :: 0 <= i < 7 ==> r[i] == ForwardMethod(name).body[i];
    assert r == ForwardMethod(name).body;
  }

  lemma {:induction false} EnableRenamed()
    ensures RenameMethod(HELPER_NAME, OBJECT, Method(9, ENABLE_NAME, VOID_DESC, ENABLE)) == EnableMethod()
  {
    hide RenameType, RenameDesc;
    NamesRenamed();
    var r := RenameEvents(HELPER_NAME, OBJECT, ENABLE);
    assert forall i :: 0 <= i < 4 ==> r[i] == EnableMethod().body[i];
    assert r == EnableMethod().body;
  }

  lemma {:induction false} PrefixedOfFour(prefix: string, a: Method, b: Method, c: Method, d: Method)
    requires !StartsWith(a.name, prefix)
    requires StartsWith(b.name, prefix) && StartsWith(c.name, prefix) && StartsWith(d.name, prefix)
    ensures PrefixedMethods(prefix, [a, b, c, d]) == [b, c, d]
  {
    assert [a, b, c, d][1..] == [b, c, d] && [b, c, d][1..] == [c, d] && [c, d][1..] == [d] && [d][1..] == [];
    assert PrefixedMethods(prefix, [d]) == [d];
    assert PrefixedMethods(prefix, [c, d]) == [c, d];
  }

  /** The grafted members: the flag and three methods, nothing else. */
  lemma {:induction false} GraftIs()
    ensures AddedFields("java/lang/Object", [ObjectAmendment()]) ==
            [Field(74, "phasicj$agent$rt$instrumentationIsEnabled", "Z")]
    ensures AddedMethods("java/lang/Object", [ObjectAmendment()]) ==
            [EnableMethod(), ForwardMethod("phasicj$agent$rt$monitorEnter"),
             ForwardMethod("phasicj$agent$rt$monitorExit")]
  {
    hide RenameMethod, RenameDesc, StartsWith, Forward;
    NamesRenamed();
    EnableRenamed();
    ForwardRenamed(ENTER_NAME);
    ForwardRenamed(EXIT_NAME);
    AmendmentAlone(ObjectAmendment());
    var ms := RenameClass(HELPER_NAME, HELPER, OBJECT).methods;
    assert ms == [ms[0], EnableMethod(), ForwardMethod(ENTER_NAME), ForwardMethod(EXIT_NAME)];
    MembersKept(HELPER_NAME, HELPER, OBJECT);
    GraftedNames();
    PrefixedOfFour(PREFIX, ms[0], ms[1], ms[2], ms[3]);
    FlagGrafted();
  }

  lemma {:induction false} GraftedNames()
    ensures !StartsWith(INIT, PREFIX) && StartsWith(ENABLE_NAME, PREFIX) && StartsWith(FLAG, PREFIX)
    ensures StartsWith(ENTER_NAME, PREFIX) && StartsWith(EXIT_NAME, PREFIX)
  {
    ConstructorNotPrefixed();
  }

  lemma {:induction false} FlagGrafted()
    ensures AddedFields(OBJECT, [ObjectAmendment()]) == [Field(74, FLAG, "Z")]
  {
    hide StartsWith, RenameDesc, RenameMethods;
    NamesRenamed();
    GraftedNames();
    var am := ObjectAmendment();
    var f := Field(74, FLAG, "Z");
    assert am.members.fields == [f];
    assert [f][1..] == [] && [am][1..] == [];
    assert PrefixedFields(PREFIX, [f]) == [f] + PrefixedFields(PREFIX, []);
    assert AddedFields(OBJECT, [am]) == PrefixedFields(PREFIX, [f]) + AddedFields(OBJECT, []);
  }

  /** A counting method of ApplicationEvents. */
  function CountMethodOf(name: string, counter: string, native: string): Method {
    Method(9, name, "()V",
      [VisitFieldInsn(178, "phasicj/agent/rt/ApplicationEvents", counter,
         "Ljava/util/concurrent/atomic/AtomicInteger;"),
       VisitMethodInsn(182, "java/util/concurrent/atomic/AtomicInteger", "incrementAndGet", "()I", false),
       VisitInsn(87),
       VisitMethodInsn(184, "phasicj/agent/rt/ApplicationEvents", native, "()V", false), VisitInsn(177),
       VisitMaxs(1, 0)])
  }

  /** A reporting method of ApplicationEvents. */
  function ReadMethodOf(name: string, counter: string): Method {
    Method(9, name, "()I",
      [VisitFieldInsn(178, "phasicj/agent/rt/ApplicationEvents", counter,
         "Ljava/util/concurrent/atomic/AtomicInteger;"),
       VisitMethodInsn(182, "java/util/concurrent/atomic/AtomicInteger", "get", "()I", false), VisitInsn(172),
       VisitMaxs(1, 0)])
  }

  /** What its static initializer does for one counter: make one that begins with 0, and store it. */
  function NewCounterOf(counter: string): seq<Event> {
    [VisitTypeInsn(187, "java/util/concurrent/atomic/AtomicInteger"), VisitInsn(89), VisitInsn(3),
     VisitMethodInsn(183, "java/util/concurrent/atomic/AtomicInteger", "<init>", "(I)V", false),
     VisitFieldInsn(179, "phasicj/agent/rt/ApplicationEvents", counter, "Ljava/util/concurrent/atomic/AtomicInteger;")]
  }

  /** ApplicationEvents: two counting methods in front of two native ones, two reporting methods, and a static
      initializer that makes the two counters. */
  lemma {:induction false} EventsClassIs()
    ensures APPLICATION_EVENTS.name == "phasicj/agent/rt/ApplicationEvents"
    ensures APPLICATION_EVENTS.superName == "java/lang/Object"
    ensures APPLICATION_EVENTS.fields ==
            [Field(26, "monitorEnterCounter", "Ljava/util/concurrent/atomic/AtomicInteger;"),
             Field(26, "monitorExitCounter", "Ljava/util/concurrent/atomic/AtomicInteger;")]
    ensures APPLICATION_EVENTS.methods[1..] ==
            [Method(266, "monitorEnter", "()V", []), Method(266, "monitorExit", "()V", []),
             CountMethodOf("phasicj$agent$rt$monitorEnter", "monitorEnterCounter", "monitorEnter"),
             CountMethodOf("phasicj$agent$rt$monitorExit", "monitorExitCounter", "monitorExit"),
             ReadMethodOf("numMonitorEnterEvents", "monitorEnterCounter"),
             ReadMethodOf("numMonitorExitEvents", "monitorExitCounter"),
             Method(8, "<clinit>", "()V", NewCounterOf("monitorEnterCounter") + NewCounterOf("monitorExitCounter")
                 + [VisitInsn(177), VisitMaxs(3, 0)])]
    ensures APPLICATION_EVENTS.methods[0] == Method(1, "<init>", "()V",
              [VisitOther(25, [0], []), VisitMethodInsn(183, "java/lang/Object", "<init>", "()V", false),
               VisitInsn(177), VisitMaxs(1, 1)])
  {}

  lemma {:induction false} SameObject(c: ClassFile, i: nat, cs: seq<ClassFile>)
    requires i < |cs| && cs[i] == c && c.name == "java/lang/Object"
    ensures !("phasicj/agent/rt/" <= c.name)
  {
    assert c.name[0] == 'j';
  }

  /** `java/lang/Object` as the load hook leaves it: its own members, instrumented, and after them the grafted ones. */
  lemma {:induction false} LoadedObject(rejected: set<string>, cs: seq<ClassFile>, i: nat)
    requires i < |cs| && cs[i].name == "java/lang/Object" && cs[i].name !in rejected
    ensures var c := Loaded("java/lang/Object", [ObjectAmendment()], rejected, cs)[i];
            && c.name == "java/lang/Object" && c.superName == cs[i].superName
            && c.fields == cs[i].fields + [Field(74, "phasicj$agent$rt$instrumentationIsEnabled", "Z")]
            && c.methods == InstrumentMethods("java/lang/Object", cs[i].methods)
                 + [EnableMethod(), ForwardMethod("phasicj$agent$rt$monitorEnter"),
                    ForwardMethod("phasicj$agent$rt$monitorExit")]
  {
    hide InstrumentMethods, AddedMethods, AddedFields;
    SameObject(cs[i], i, cs);
    LoadedIsInstrumented(OBJECT, [ObjectAmendment()], rejected, cs, i);
    GraftIs();
    ObjectGraftIsVerbatim(OBJECT);
    InstrumentMethodsConcat(OBJECT, cs[i].methods, AddedMethods(OBJECT, [ObjectAmendment()]));
  }

  // ---------------------------------------------------------------- what handling an event reaches

  /** The loaded least program as far as it matters here. */
  predicate LikeLeast(cs: seq<ClassFile>) {
    && |cs| == 3 && cs[0].name == OBJECT && |cs[0].methods| == 4
    && cs[0].methods[2] == ForwardMethod(ENTER_NAME) && cs[0].methods[3] == ForwardMethod(EXIT_NAME)
    && cs[1] == APPLICATION_EVENTS
    && cs[2].name == COUNTER_NAME && |cs[2].methods| == 3
    && cs[2].methods[1].name == "incrementAndGet" && cs[2].methods[1].desc == "()I"
  }

  lemma {:induction false} LeastLoaded()
    ensures LikeLeast(Loaded("java/lang/Object", [ObjectAmendment()], {}, LEAST_PROGRAM))
  {
    hide ForwardMethod, EnableMethod, Forward, CountAndForward;
    NamesDiffer();
    EventsIsRuntime();
    LoadedObject({}, LEAST_PROGRAM, 0);
    LoadedIsInstrumented(OBJECT, [ObjectAmendment()], {}, LEAST_PROGRAM, 1);
    LoadedIsInstrumented(OBJECT, [ObjectAmendment()], {}, LEAST_PROGRAM, 2);
    assert |COUNTER_NAME| == 41;
    AddedOnlyTo(ObjectAmendment(), COUNTER_NAME);
  }

  lemma {:induction false} EdgeBy(d: Linkage, cs: seq<ClassFile>, a: Node, b: Node, k: nat)
    requires IsNode(cs, a) && IsNode(cs, b) && k < |MethodOf(cs, a).body|
    requires var e := MethodOf(cs, a).body[k];
             && e.VisitMethodInsn? && e.name == MethodOf(cs, b).name && e.desc == MethodOf(cs, b).desc
             && d.runs(e.owner, cs[b.cls].name)
    ensures Edge(d, cs, a, b)
  {
    assert MayRun(d, MethodOf(cs, a).body[k], cs[b.cls].name, MethodOf(cs, b));
  }

  lemma {:induction false} EntryIs(d: Linkage, cs: seq<ClassFile>, k: Kind, n: Node)
    requires IsNode(cs, n) && cs[n.cls].name == OBJECT && d.runs(OBJECT, OBJECT)
    requires MethodOf(cs, n).name == (if k.Enter? then ENTER_NAME else EXIT_NAME) && MethodOf(cs, n).desc == VOID_DESC
    ensures IsEntry(d, OBJECT, cs, n) && IsPath(d, OBJECT, cs, [n])
  {}

  lemma {:induction false} EndReached(d: Linkage, cs: seq<ClassFile>, p: seq<Node>)
    requires IsPath(d, OBJECT, cs, p)
    ensures Reachable(d, OBJECT, cs, p[|p| - 1])
  {}

  lemma {:induction false} GraftEdge(d: Linkage, cs: seq<ClassFile>, k: Kind)
    requires LikeLeast(cs) && d.runs(OBJECT, OBJECT) && d.runs(EVENTS_NAME, EVENTS_NAME)
    ensures var i := if k.Enter? then 0 else 1;
            IsPath(d, OBJECT, cs, [Node(0, 2 + i)]) && Edge(d, cs, Node(0, 2 + i), Node(1, 3 + i))
  {
    hide IsPath, Edge;
    var i := if k.Enter? then 0 else 1;
    EntryIs(d, cs, k, Node(0, 2 + i));
    EdgeBy(d, cs, Node(0, 2 + i), Node(1, 3 + i), 2);
  }

  lemma {:induction false} CountEdges(d: Linkage, cs: seq<ClassFile>, k: Kind)
    requires LikeLeast(cs) && d.runs(EVENTS_NAME, EVENTS_NAME) && d.runs(COUNTER_NAME, COUNTER_NAME)
    ensures var i := if k.Enter? then 0 else 1;
            Edge(d, cs, Node(1, 3 + i), Node(1, 1 + i)) && Edge(d, cs, Node(1, 3 + i), Node(2, 1))
  {
    hide Edge, ForwardMethod;
    var i := if k.Enter? then 0 else 1;
    EdgeBy(d, cs, Node(1, 3 + i), Node(1, 1 + i), 3);
    EdgeBy(d, cs, Node(1, 3 + i), Node(2, 1), 1);
  }

  /** Handling an event of kind `k` in the least program runs the grafted method, the method of ApplicationEvents, the
      native method, and the counter's increment: what is said of reachable methods is said of these. */
  lemma {:induction false} LeastProgramReaches(d: Linkage, k: Kind)
    requires d.runs(OBJECT, OBJECT) && d.runs(EVENTS_NAME, EVENTS_NAME) && d.runs(COUNTER_NAME, COUNTER_NAME)
    ensures var cs := Loaded("java/lang/Object", [ObjectAmendment()], {}, LEAST_PROGRAM);
            var i := if k.Enter? then 0 else 1;
            && Reachable(d, OBJECT, cs, Node(0, 2 + i)) && Reachable(d, OBJECT, cs, Node(1, 3 + i))
            && Reachable(d, OBJECT, cs, Node(1, 1 + i)) && Reachable(d, OBJECT, cs, Node(2, 1))
  {
    hide *;
    var cs := Loaded("java/lang/Object", [ObjectAmendment()], {}, LEAST_PROGRAM);
    var i := if k.Enter? then 0 else 1;
    LeastLoaded();
    GraftEdge(d, cs, k);
    CountEdges(d, cs, k);
    var graft, count, native, counter := Node(0, 2 + i), Node(1, 3 + i), Node(1, 1 + i), Node(2, 1);
    EndReached(d, cs, [graft]);
    PathExtends(d, OBJECT, cs, [graft], count);
    EndReached(d, cs, [graft] + [count]);
    PathExtends(d, OBJECT, cs, [graft] + [count], counter);
    PathExtends(d, OBJECT, cs, [graft] + [count], native);
    EndReached(d, cs, [graft] + [count] + [counter]);
    EndReached(d, cs, [graft] + [count] + [native]);
  }

  /** And the first event runs the static initializer of ApplicationEvents, if using a class initializes it. */
  lemma {:induction false} LeastProgramInitializes(d: Linkage)
    requires d.runs(OBJECT, OBJECT) && d.runs(EVENTS_NAME, EVENTS_NAME) && d.initializes(EVENTS_NAME, EVENTS_NAME)
    ensures Reachable(d, OBJECT, Loaded("java/lang/Object", [ObjectAmendment()], {}, LEAST_PROGRAM), Node(1, 7))
  {
    hide Loaded, Reachable, IsPath, Edge;
    var cs := Loaded("java/lang/Object", [ObjectAmendment()], {}, LEAST_PROGRAM);
    LeastLoaded();
    GraftEdge(d, cs, Enter);
    InitializerEdge(d, cs);
    PathExtends(d, OBJECT, cs, [Node(0, 2)], Node(1, 7));
    EndReached(d, cs, [Node(0, 2)] + [Node(1, 7)]);
  }

  lemma {:induction false} InitializerEdge(d: Linkage, cs: seq<ClassFile>)
    requires LikeLeast(cs) && d.initializes(EVENTS_NAME, EVENTS_NAME)
    ensures Edge(d, cs, Node(0, 2), Node(1, 7))
  {
    var body := MethodOf(cs, Node(0, 2)).body;
    UseRuns(d, body[2], cs[1].name, MethodOf(cs, Node(1, 7)));
    assert MayRun(d, body[2], cs[1].name, MethodOf(cs, Node(1, 7)));
  }
}

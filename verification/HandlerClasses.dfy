/**
  The classes of `phasicj/agent/rt` that handle events, as a compiler writes them: the helper whose members are
  grafted onto `java/lang/Object`, and the class it forwards to. Line numbers and local variable tables are left out.
 */
module HandlerClasses {
  import opened Bytecode
  import opened ClassFiles
  import opened Linking

  const OBJECT := "java/lang/Object"
  const HELPER_NAME := "phasicj/agent/rt/JavaLangObjectAmendment"
  const EVENTS_NAME := "phasicj/agent/rt/ApplicationEvents"
  const COUNTER_NAME := "java/util/concurrent/atomic/AtomicInteger"
  const COUNTER_DESC := "Ljava/util/concurrent/atomic/AtomicInteger;"
  const PREFIX := "phasicj$agent$rt$"
  const FLAG := "phasicj$agent$rt$instrumentationIsEnabled"
  const ENABLE_NAME := "phasicj$agent$rt$enableInstrumentation"
  const NATIVE_ENTER := "monitorEnter"
  const NATIVE_EXIT := "monitorExit"
  const ENTER_COUNTER := "monitorEnterCounter"
  const EXIT_COUNTER := "monitorExitCounter"
  const INIT := "<init>"
  const CLINIT := "<clinit>"

  const ICONST_0 := 3
  const ICONST_1 := 4
  const ALOAD := 25
  const POP := 87
  const DUP := 89
  const IFEQ := 153
  const IRETURN := 172
  const RETURN := 177
  const GETSTATIC := 178
  const PUTSTATIC := 179
  const INVOKEVIRTUAL := 182
  const INVOKESPECIAL := 183
  const NEW := 187

  /** The constructor every class without one is given: it calls that of the superclass. */
  const CONSTRUCTOR :=
    Method(1, INIT, VOID_DESC,
      [VisitOther(ALOAD, [0], []), VisitMethodInsn(INVOKESPECIAL, OBJECT, INIT, VOID_DESC, false), VisitInsn(RETURN),
          VisitMaxs(1, 1)])

  /** Reads the flag and, if it is set, calls the method of ApplicationEvents that has the same name. */
  function Forward(name: string): seq<Event> {
    [VisitFieldInsn(GETSTATIC, HELPER_NAME, FLAG, "Z"), VisitOther(IFEQ, [], [0]),
     VisitMethodInsn(INVOKESTATIC, EVENTS_NAME, name, VOID_DESC, false),
     VisitLabel(0), VisitFrame([], []), VisitInsn(RETURN), VisitMaxs(1, 0)]
  }

  const ENABLE: seq<Event> :=
    [VisitInsn(ICONST_1), VisitFieldInsn(PUTSTATIC, HELPER_NAME, FLAG, "Z"), VisitInsn(RETURN), VisitMaxs(1, 0)]

  /** `JavaLangObjectAmendment`. */
  const HELPER :=
    ClassFile(HELPER_NAME, OBJECT, [Field(74, FLAG, "Z")],
      [CONSTRUCTOR, Method(9, ENABLE_NAME, VOID_DESC, ENABLE),
       Method(9, ENTER_NAME, VOID_DESC, Forward(ENTER_NAME)), Method(9, EXIT_NAME, VOID_DESC, Forward(EXIT_NAME))])

  /** Increments a counter, then calls a native method. */
  function CountAndForward(counter: string, native: string): seq<Event> {
    [VisitFieldInsn(GETSTATIC, EVENTS_NAME, counter, COUNTER_DESC),
     VisitMethodInsn(INVOKEVIRTUAL, COUNTER_NAME, "incrementAndGet", "()I", false), VisitInsn(POP),
     VisitMethodInsn(INVOKESTATIC, EVENTS_NAME, native, VOID_DESC, false), VisitInsn(RETURN), VisitMaxs(1, 0)]
  }

  function ReadCounter(counter: string): seq<Event> {
    [VisitFieldInsn(GETSTATIC, EVENTS_NAME, counter, COUNTER_DESC),
     VisitMethodInsn(INVOKEVIRTUAL, COUNTER_NAME, "get", "()I", false), VisitInsn(IRETURN), VisitMaxs(1, 0)]
  }

  function NewCounter(counter: string): seq<Event> {
    [VisitTypeInsn(NEW, COUNTER_NAME), VisitInsn(DUP), VisitInsn(ICONST_0),
     VisitMethodInsn(INVOKESPECIAL, COUNTER_NAME, INIT, "(I)V", false),
     VisitFieldInsn(PUTSTATIC, EVENTS_NAME, counter, COUNTER_DESC)]
  }

  /** The static initializer that makes both counters. */
  const COUNTERS: seq<Event> :=
    NewCounter(ENTER_COUNTER) + NewCounter(EXIT_COUNTER) + [VisitInsn(RETURN), VisitMaxs(3, 0)]

  /** `ApplicationEvents`; its two native methods have no body. */
  const APPLICATION_EVENTS :=
    ClassFile(EVENTS_NAME, OBJECT, [Field(26, ENTER_COUNTER, COUNTER_DESC), Field(26, EXIT_COUNTER, COUNTER_DESC)],
      [CONSTRUCTOR, Method(266, NATIVE_ENTER, VOID_DESC, []), Method(266, NATIVE_EXIT, VOID_DESC, []),
       Method(9, ENTER_NAME, VOID_DESC, CountAndForward(ENTER_COUNTER, NATIVE_ENTER)),
       Method(9, EXIT_NAME, VOID_DESC, CountAndForward(EXIT_COUNTER, NATIVE_EXIT)),
       Method(9, "numMonitorEnterEvents", "()I", ReadCounter(ENTER_COUNTER)),
       Method(9, "numMonitorExitEvents", "()I", ReadCounter(EXIT_COUNTER)),
       Method(8, CLINIT, VOID_DESC, COUNTERS)])

  /** The amendment that `Instrumenter` makes of the helper. */
  function ObjectAmendment(): AmendmentData {
    AmendmentOf(OBJECT, PREFIX, HELPER)
  }

  // ---------------------------------------------------------------- the helper is fit to be grafted

  lemma {:induction false} NamesDiffer()
    ensures HELPER_NAME != OBJECT && EVENTS_NAME != OBJECT && EVENTS_NAME != HELPER_NAME
  {
    assert |HELPER_NAME| == 40 && |EVENTS_NAME| == 34 && |OBJECT| == 16;
  }

  lemma {:induction false} AreClassNames()
    ensures ClassName(OBJECT) && ClassName(HELPER_NAME)
  {}

  lemma {:induction false} ForwardContained(name: string, e: Event)
    requires e in Forward(name)
    ensures RefersWithin(e, HELPER_NAME, PREFIX, HELPER) && RefersWithin(e, OBJECT, PREFIX, HELPER)
  {
    NamesDiffer();
    assert HELPER.fields[0].name == FLAG;
  }

  lemma {:induction false} EnableContained(e: Event)
    requires e in ENABLE
    ensures RefersWithin(e, HELPER_NAME, PREFIX, HELPER) && RefersWithin(e, OBJECT, PREFIX, HELPER)
  {
    NamesDiffer();
    assert HELPER.fields[0].name == FLAG;
  }

  lemma {:induction false} ConstructorNotPrefixed()
    ensures !StartsWith(INIT, PREFIX)
  {
    assert |PREFIX| == 17 && |INIT| == 6;
  }

  /** The helper this agent grafts meets the condition of link closure, although its constructor calls a method of
      `java/lang/Object`. */
  lemma {:induction false} HelperIsSelfContained()
    ensures SelfContained(HELPER, OBJECT, PREFIX)
  {
    ConstructorNotPrefixed();
    forall i, j | 0 <= i < |HELPER.methods| && StartsWith(HELPER.methods[i].name, PREFIX)
        && 0 <= j < |HELPER.methods[i].body|
      ensures RefersWithin(HELPER.methods[i].body[j], HELPER_NAME, PREFIX, HELPER)
      ensures RefersWithin(HELPER.methods[i].body[j], OBJECT, PREFIX, HELPER)
    {
      var e := HELPER.methods[i].body[j];
      if i == 1 {
        EnableContained(e);
      } else {
        ForwardContained(HELPER.methods[i].name, e);
      }
    }
  }

  /** Link closure for the amendment of `java/lang/Object`: its grafted methods do not mention the helper class, and
      what they refer to under the prefix is there. */
  lemma {:induction false} ObjectGraftIsClosed(h: string, ams: seq<AmendmentData>, target: ClassFile,
      m: Method, e: Event)
    requires target.name == OBJECT && ObjectAmendment() in ams
    requires m in AddedMethods(OBJECT, [ObjectAmendment()]) && e in m.body
    ensures !EventMentions(e, HELPER_NAME)
    ensures RefersWithin(e, OBJECT, PREFIX, InstrumentClass(h, ams, target))
  {
    NamesDiffer();
    AreClassNames();
    HelperIsSelfContained();
    AmendmentAlone(ObjectAmendment());
    GraftIsClosed(h, ams, HELPER, target, PREFIX, m, e);
  }

  lemma {:induction false} AmendmentAlone(am: AmendmentData)
    ensures AddedMethods(am.classToAmend, [am]) == PrefixedMethods(am.prefix, am.members.methods)
  {
    assert [am][1..] == [];
  }

  /** The calls inserted into any class find their methods in the amended `java/lang/Object`. */
  lemma {:induction false} ObjectCallsResolve(ams: seq<AmendmentData>, target: ClassFile, c: ClassFile, i: nat,
      e: Event)
    requires target.name == OBJECT && ObjectAmendment() in ams
    requires i < |c.methods| && e in InstrumentMethods(OBJECT, c.methods)[i].body && e !in c.methods[i].body
    ensures e.VisitMethodInsn? && e.owner == OBJECT
    ensures DeclaresMethod(InstrumentClass(OBJECT, ams, target), e.name, e.desc)
  {
    HandlerNamesPrefixed();
    assert HELPER.methods[2].name == ENTER_NAME && HELPER.methods[3].name == EXIT_NAME;
    RenamedDeclares(HELPER_NAME, OBJECT, HELPER, ENTER_NAME, VOID_DESC);
    RenamedDeclares(HELPER_NAME, OBJECT, HELPER, EXIT_NAME, VOID_DESC);
    VoidDescRenamed();
    InsertedCallsResolve(ams, ObjectAmendment(), target, c, i, e);
  }

  lemma {:induction false} HandlerNamesPrefixed()
    ensures StartsWith(ENTER_NAME, PREFIX) && StartsWith(EXIT_NAME, PREFIX)
  {}

  lemma {:induction false} VoidDescRenamed()
    ensures RenameDesc(HELPER_NAME, OBJECT, VOID_DESC) == VOID_DESC
  {
    assert VOID_DESC[1..] == ")V" && ")V"[1..] == "V" && "V"[1..] == "";
    assert RenameDesc(HELPER_NAME, OBJECT, "") == "";
    assert RenameDesc(HELPER_NAME, OBJECT, "V") == "V";
    assert RenameDesc(HELPER_NAME, OBJECT, ")V") == ")V";
  }
}

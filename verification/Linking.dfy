/**
  What class transformation guarantees about whole classes: erasure and counting, when amendments are copied
  unchanged, that grafted members are self-contained, and that inserted calls resolve.
 */
module Linking {
  import opened Bytecode
  import opened InsertedCalls
  import opened ClassFiles

  // ---------------------------------------------------------------- erasure and counting

  /** The events that are not handler calls. */
  function Strip(h: string, es: seq<Event>): seq<Event> {
    if es == [] then []
    else (if IsHandlerCall(h, es[0]) then [] else [es[0]]) + Strip(h, es[1..])
  }

  /** `n` handler calls of the right kind before every monitor instruction. */
  function Expand(h: string, es: seq<Event>, n: nat): seq<Event> {
    if es == [] then []
    else
      (if es[0] == VisitInsn(MONITORENTER) then Repeat(HandlerCall(h, Enter), n)
       else if es[0] == VisitInsn(MONITOREXIT) then Repeat(HandlerCall(h, Exit), n)
       else [])
      + [es[0]] + Expand(h, es[1..], n)
  }

  function Repeat(e: Event, n: nat): (r: seq<Event>)
    ensures |r| == n && forall i :: 0 <= i < n ==> r[i] == e
  {
    if n == 0 then [] else [e] + Repeat(e, n - 1)
  }

  function InstrumentTimes(h: string, es: seq<Event>, n: nat): seq<Event> {
    if n == 0 then es else InstrumentEvents(h, InstrumentTimes(h, es, n - 1))
  }

  lemma {:induction false} RepeatUntouched(h: string, k: Kind, n: nat)
    ensures InstrumentEvents(h, Repeat(HandlerCall(h, k), n)) == Repeat(HandlerCall(h, k), n)
    ensures Repeat(HandlerCall(h, k), n) + [HandlerCall(h, k)] == Repeat(HandlerCall(h, k), n + 1)
  {
    if n == 0 {
    } else {
      RepeatUntouched(h, k, n - 1);
      assert Repeat(HandlerCall(h, k), n)[1..] == Repeat(HandlerCall(h, k), n - 1);
    }
  }

  lemma {:induction false} MonitorExpanded(h: string, k: Kind, n: nat, tail: seq<Event>)
    ensures var e := VisitInsn(if k.Enter? then MONITORENTER else MONITOREXIT);
            InstrumentEvents(h, Repeat(HandlerCall(h, k), n) + [e] + tail)
              == Repeat(HandlerCall(h, k), n + 1) + [e] + InstrumentEvents(h, tail)
  {
    hide Repeat, HandlerCall;
    var e := VisitInsn(if k.Enter? then MONITORENTER else MONITOREXIT);
    var calls := Repeat(HandlerCall(h, k), n);
    RepeatUntouched(h, k, n);
    assert calls + [e] + tail == calls + ([e] + tail);
    InstrumentConcat(h, calls, [e] + tail);
    assert ([e] + tail)[1..] == tail;
    assert InstrumentEvents(h, [e] + tail) == [HandlerCall(h, k), e] + InstrumentEvents(h, tail);
  }

  lemma {:induction false} InstrumentExpanded(h: string, es: seq<Event>, n: nat)
    ensures InstrumentEvents(h, Expand(h, es, n)) == Expand(h, es, n + 1)
  {
    if es == [] {
    } else {
      var e := es[0];
      var tail := Expand(h, es[1..], n);
      InstrumentExpanded(h, es[1..], n);
      MonitorExpanded(h, Enter, n, tail);
      MonitorExpanded(h, Exit, n, tail);
      if e != VisitInsn(MONITORENTER) && e != VisitInsn(MONITOREXIT) {
        assert Expand(h, es, n) == [e] + tail;
        assert ([e] + tail)[1..] == tail;
      }
    }
  }

  lemma {:induction false} ExpandNone(h: string, es: seq<Event>)
    ensures Expand(h, es, 0) == es
  {
    if es == [] {
    } else {
      ExpandNone(h, es[1..]);
    }
  }

  /** Instrumenting n times puts exactly n matching calls before every monitor instruction and changes nothing else. */
  lemma {:induction false} TimesIsExpand(h: string, es: seq<Event>, n: nat)
    ensures InstrumentTimes(h, es, n) == Expand(h, es, n)
  {
    hide InstrumentEvents, Expand;
    if n == 0 {
      ExpandNone(h, es);
    } else {
      TimesIsExpand(h, es, n - 1);
      InstrumentExpanded(h, es, n - 1);
    }
  }

  lemma {:induction false} StripConcat(h: string, a: seq<Event>, b: seq<Event>)
    ensures Strip(h, a + b) == Strip(h, a) + Strip(h, b)
  {
    hide IsHandlerCall;
    if a == [] {
      assert a + b == b;
    } else {
      assert (a + b)[1..] == a[1..] + b;
      StripConcat(h, a[1..], b);
      var first := if IsHandlerCall(h, a[0]) then [] else [a[0]];
      assert (first + Strip(h, a[1..])) + Strip(h, b) == first + (Strip(h, a[1..]) + Strip(h, b));
    }
  }

  /** Instrumentation is invisible once handler calls are removed, whether or not the method had any before. */
  lemma {:induction false} StripInstrumented(h: string, es: seq<Event>)
    ensures Strip(h, InstrumentEvents(h, es)) == Strip(h, es)
  {
    if es == [] {
    } else {
      StripInstrumented(h, es[1..]);
      StripConcat(h, InstrumentEvent(h, es[0]), InstrumentEvents(h, es[1..]));
      var i := InstrumentEvent(h, es[0]);
      assert |i| == 2 ==> i[1..] == [es[0]] && i[1..][1..] == [];
    }
  }

  lemma {:induction false} StripTimes(h: string, es: seq<Event>, n: nat)
    ensures Strip(h, InstrumentTimes(h, es, n)) == Strip(h, es)
  {
    if n == 0 {
    } else {
      StripTimes(h, es, n - 1);
      StripInstrumented(h, InstrumentTimes(h, es, n - 1));
    }
  }

  lemma {:induction false} StripNothing(h: string, es: seq<Event>)
    requires NoHandlerCalls(h, es)
    ensures Strip(h, es) == es
  {
    if es == [] {
    } else {
      assert es[0] in es;
      StripNothing(h, es[1..]);
    }
  }

  function StripMethods(h: string, ms: seq<Method>): (r: seq<Method>)
    ensures |r| == |ms| && forall i :: 0 <= i < |r| ==> r[i] == ms[i].(body := Strip(h, ms[i].body))
  {
    seq(|ms|, i requires 0 <= i < |ms| => ms[i].(body := Strip(h, ms[i].body)))
  }

  function IterateInstrument(h: string, ams: seq<AmendmentData>, c: ClassFile, n: nat): ClassFile {
    if n == 0 then c else InstrumentClass(h, ams, IterateInstrument(h, ams, c, n - 1))
  }

  /** However often a class that no amendment names is instrumented: without the inserted calls it is the same class,
      member by member. */
  lemma {:induction false} ClassErasure(h: string, ams: seq<AmendmentData>, c: ClassFile, n: nat)
    requires forall i :: 0 <= i < |ams| ==> ams[i].classToAmend != c.name
    requires forall i :: 0 <= i < |c.methods| ==> NoHandlerCalls(h, c.methods[i].body)
    ensures var r := IterateInstrument(h, ams, c, n);
            r.(methods := StripMethods(h, r.methods)) == c
  {
    NothingAdded(c.name, ams);
    if n == 0 {
      forall i | 0 <= i < |c.methods| ensures Strip(h, c.methods[i].body) == c.methods[i].body {
        StripNothing(h, c.methods[i].body);
      }
      assert StripMethods(h, c.methods) == c.methods;
    } else {
      ClassErasure(h, ams, c, n - 1);
      var r := IterateInstrument(h, ams, c, n - 1);
      forall i | 0 <= i < |r.methods| ensures Strip(h, InstrumentMethods(h, r.methods)[i].body)
          == Strip(h, r.methods[i].body) {
        StripInstrumented(h, r.methods[i].body);
      }
      assert StripMethods(h, InstrumentMethods(h, r.methods)) == StripMethods(h, r.methods);
      assert InstrumentMethods(h, r.methods) + InstrumentMethods(h, []) == InstrumentMethods(h, r.methods);
    }
  }

  lemma {:induction false} NothingAdded(name: string, ams: seq<AmendmentData>)
    requires forall i :: 0 <= i < |ams| ==> ams[i].classToAmend != name
    ensures AddedFields(name, ams) == [] && AddedMethods(name, ams) == []
  {
    if ams == [] {
    } else {
      assert forall i :: 0 <= i < |ams[1..]| ==> ams[1..][i] == ams[i + 1];
      NothingAdded(name, ams[1..]);
    }
  }

  lemma {:induction false} StripInstrumentedMethods(h: string, ms: seq<Method>)
    requires forall i :: 0 <= i < |ms| ==> NoHandlerCalls(h, ms[i].body)
    ensures StripMethods(h, InstrumentMethods(h, ms)) == ms
  {
    forall i | 0 <= i < |ms| ensures StripMethods(h, InstrumentMethods(h, ms))[i] == ms[i] {
      StripInstrumented(h, ms[i].body);
      StripNothing(h, ms[i].body);
    }
  }

  /** The same for a class that amendments name: without the inserted calls it is the class with the members of its
      amendments behind its own. */
  lemma {:induction false} AmendedErasure(h: string, ams: seq<AmendmentData>, c: ClassFile)
    requires forall m :: m in c.methods || m in AddedMethods(c.name, ams) ==> NoHandlerCalls(h, m.body)
    ensures var r := InstrumentClass(h, ams, c);
            r.(methods := StripMethods(h, r.methods)) ==
            ClassFile(c.name, c.superName, c.fields + AddedFields(c.name, ams), c.methods + AddedMethods(c.name, ams))
  {
    hide NoHandlerCalls;
    var added := AddedMethods(c.name, ams);
    var all := c.methods + added;
    InstrumentMethodsConcat(h, c.methods, added);
    forall i | 0 <= i < |all| ensures NoHandlerCalls(h, all[i].body) {
      assert all[i] in c.methods || all[i] in added;
    }
    StripInstrumentedMethods(h, all);
  }

  /** Which members an amendment adds: those of its class whose name begins with its prefix, in their order. */
  lemma {:induction false} PrefixedInOrder(prefix: string, a: seq<Method>, m: Method, b: seq<Method>)
    ensures PrefixedMethods(prefix, a + [m] + b) ==
            PrefixedMethods(prefix, a) + (if prefix <= m.name then [m] else []) + PrefixedMethods(prefix, b)
  {
    var one := if prefix <= m.name then [m] else [];
    if a == [] {
      assert a + [m] + b == [m] + b && ([m] + b)[1..] == b;
      assert [] + one == one;
    } else {
      assert (a + [m] + b)[1..] == a[1..] + [m] + b;
      PrefixedInOrder(prefix, a[1..], m, b);
      var first := if StartsWith(a[0].name, prefix) then [a[0]] else [];
      var x, y := PrefixedMethods(prefix, a[1..]), PrefixedMethods(prefix, b);
      assert first + (x + one + y) == (first + x) + one + y;
    }
  }

  lemma {:induction false} PrefixedFieldsInOrder(prefix: string, a: seq<Field>, f: Field, b: seq<Field>)
    ensures PrefixedFields(prefix, a + [f] + b) ==
            PrefixedFields(prefix, a) + (if prefix <= f.name then [f] else []) + PrefixedFields(prefix, b)
  {
    var one := if prefix <= f.name then [f] else [];
    if a == [] {
      assert a + [f] + b == [f] + b && ([f] + b)[1..] == b;
      assert [] + one == one;
    } else {
      assert (a + [f] + b)[1..] == a[1..] + [f] + b;
      PrefixedFieldsInOrder(prefix, a[1..], f, b);
      var first := if StartsWith(a[0].name, prefix) then [a[0]] else [];
      var x, y := PrefixedFields(prefix, a[1..]), PrefixedFields(prefix, b);
      assert first + (x + one + y) == (first + x) + one + y;
    }
  }

  /** The members of all amendments that name the class, amendment after amendment; of the others nothing. */
  lemma {:induction false} AddedInOrder(name: string, a: seq<AmendmentData>, am: AmendmentData, b: seq<AmendmentData>)
    ensures AddedMethods(name, a + [am] + b) == AddedMethods(name, a)
        + (if am.classToAmend == name then PrefixedMethods(am.prefix, am.members.methods) else [])
        + AddedMethods(name, b)
    ensures AddedFields(name, a + [am] + b) == AddedFields(name, a)
        + (if am.classToAmend == name then PrefixedFields(am.prefix, am.members.fields) else [])
        + AddedFields(name, b)
  {
    hide PrefixedMethods, PrefixedFields;
    var ms := if am.classToAmend == name then PrefixedMethods(am.prefix, am.members.methods) else [];
    var fs := if am.classToAmend == name then PrefixedFields(am.prefix, am.members.fields) else [];
    if a == [] {
      assert a + [am] + b == [am] + b && ([am] + b)[1..] == b;
      assert [] + ms == ms && [] + fs == fs;
    } else {
      assert (a + [am] + b)[1..] == a[1..] + [am] + b;
      AddedInOrder(name, a[1..], am, b);
      AddedRegroup(name, a, ms, AddedMethods(name, b), fs, AddedFields(name, b));
    }
  }

  lemma {:induction false} AddedRegroup(name: string, a: seq<AmendmentData>, ms: seq<Method>, ms': seq<Method>,
      fs: seq<Field>, fs': seq<Field>)
    requires a != []
    ensures var first := if a[0].classToAmend == name then PrefixedMethods(a[0].prefix, a[0].members.methods) else [];
            AddedMethods(name, a) + ms + ms' == first + (AddedMethods(name, a[1..]) + ms + ms')
    ensures var first := if a[0].classToAmend == name then PrefixedFields(a[0].prefix, a[0].members.fields) else [];
            AddedFields(name, a) + fs + fs' == first + (AddedFields(name, a[1..]) + fs + fs')
  {
    hide PrefixedMethods, PrefixedFields;
  }

  // ---------------------------------------------------------------- when amendments are copied unchanged

  predicate MonitorFree(es: seq<Event>) {
    VisitInsn(MONITORENTER) !in es && VisitInsn(MONITOREXIT) !in es
  }

  lemma {:induction false} InstrumentGrows(h: string, es: seq<Event>)
    ensures |InstrumentEvents(h, es)| >= |es|
    ensures MonitorFree(es) ==> InstrumentEvents(h, es) == es
    ensures !MonitorFree(es) ==> |InstrumentEvents(h, es)| > |es|
  {
    if es == [] {
    } else {
      InstrumentGrows(h, es[1..]);
      assert es == [es[0]] + es[1..];
      assert MonitorFree(es) <==> MonitorFree([es[0]]) && MonitorFree(es[1..]);
    }
  }

  /** Members of an amendment are written unchanged exactly when none of them contains a monitor instruction. */
  lemma {:induction false} AmendmentVerbatim(h: string, name: string, ams: seq<AmendmentData>)
    ensures InstrumentMethods(h, AddedMethods(name, ams)) == AddedMethods(name, ams) <==>
            forall m :: m in AddedMethods(name, ams) ==> MonitorFree(m.body)
  {
    var added := AddedMethods(name, ams);
    forall i | 0 <= i < |added|
      ensures InstrumentMethods(h, added)[i] == added[i] <==> MonitorFree(added[i].body)
    {
      InstrumentGrows(h, added[i].body);
    }
    if InstrumentMethods(h, added) == added {
      forall m | m in added ensures MonitorFree(m.body) {
        var i :| 0 <= i < |added| && added[i] == m;
        assert InstrumentMethods(h, added)[i] == added[i];
      }
    }
    if forall m :: m in added ==> MonitorFree(m.body) {
      forall i | 0 <= i < |added| ensures InstrumentMethods(h, added)[i] == added[i] {
        assert added[i] in added;
      }
    }
  }

  /** An amendment whose only member enters a monitor: it is not copied without modification. */
  lemma {:induction false} AmendmentInstrumented(h: string)
    ensures var m := Method(9, "p", VOID_DESC, [VisitInsn(MONITORENTER)]);
            var am := AmendmentData("T", "p", ClassFile("T", "", [], [m]));
            InstrumentClass(h, [am], ClassFile("T", "", [], [])).methods ==
              [m.(body := [HandlerCall(h, Enter), VisitInsn(MONITORENTER)])]
  {
    var m := Method(9, "p", VOID_DESC, [VisitInsn(MONITORENTER)]);
    var am := AmendmentData("T", "p", ClassFile("T", "", [], [m]));
    assert AddedMethods("T", [am]) == [m] by {
      assert [am][1..] == [] && [m][1..] == [];
      assert PrefixedMethods("p", [m]) == [m];
    }
    assert [VisitInsn(MONITORENTER)][1..] == [];
    assert InstrumentEvents(h, m.body) == [HandlerCall(h, Enter), VisitInsn(MONITORENTER)];
  }

  lemma {:induction false} CallsInsertedIff(h: string, es: seq<Event>)
    requires NoHandlerCalls(h, es)
    ensures NoHandlerCalls(h, InstrumentEvents(h, es)) <==> MonitorFree(es)
  {
    InstrumentGrows(h, es);
    if !MonitorFree(es) && NoHandlerCalls(h, InstrumentEvents(h, es)) {
      StripInstrumented(h, es);
      StripNothing(h, es);
      StripNothing(h, InstrumentEvents(h, es));
      assert false;
    }
  }

  // ---------------------------------------------------------------- grafted members do not mention the helper class

  predicate DescMentions(desc: string, cls: string)
    decreases |desc|
  {
    if desc == "" then false
    else if desc[0] != 'L' then DescMentions(desc[1..], cls)
    else
      var n := IndexOf(desc, ';');
      n < |desc| && (desc[1..n] == cls || DescMentions(desc[n + 1..], cls))
  }

  predicate TypeMentions(ty: string, cls: string) {
    if ty != "" && ty[0] == '[' then DescMentions(ty, cls) else ty == cls
  }

  predicate EventMentions(e: Event, cls: string) {
    match e
    case VisitTryCatch(_, _, _, ty) => ty == cls
    case VisitFrame(shape, _) => exists i :: 0 <= i < |shape| && TypeMentions(shape[i], cls)
    case VisitMethodInsn(_, owner, _, desc, _) => TypeMentions(owner, cls) || DescMentions(desc, cls)
    case VisitFieldInsn(_, owner, _, desc) => TypeMentions(owner, cls) || DescMentions(desc, cls)
    case VisitTypeInsn(_, ty) => TypeMentions(ty, cls)
    case _ => false
  }

  predicate MethodMentions(m: Method, cls: string) {
    DescMentions(m.desc, cls) || exists i :: 0 <= i < |m.body| && EventMentions(m.body[i], cls)
  }

  predicate ClassMentions(c: ClassFile, cls: string) {
    || c.name == cls || c.superName == cls
    || (exists i :: 0 <= i < |c.fields| && DescMentions(c.fields[i].desc, cls))
    || (exists i :: 0 <= i < |c.methods| && MethodMentions(c.methods[i], cls))
  }

  /** Names a class can have: not an array, and no `;` inside. */
  predicate ClassName(s: string) {
    s != "" && s[0] != '[' && ';' !in s
  }

  lemma {:induction false} IndexAfter(s: string, rest: string)
    requires ';' !in s
    ensures IndexOf(s + ";" + rest, ';') == |s|
  {
    var t := s + ";" + rest;
    assert t[|s|] == ';';
    assert forall j :: 0 <= j < |s| ==> t[j] == s[j] && s[j] in s;
  }

  /** A descriptor that begins with a class name mentions that name or what the rest mentions. */
  lemma {:induction false} MentionsFirst(name: string, rest: string, cls: string)
    requires ';' !in name
    ensures DescMentions("L" + name + ";" + rest, cls) <==> name == cls || DescMentions(rest, cls)
  {
    var r := "L" + name + ";" + rest;
    IndexAfter("L" + name, rest);
    assert r[1..|name| + 1] == name && r[|name| + 2..] == rest;
  }

  lemma {:induction false} DescRenamed(from: string, to: string, desc: string)
    requires from != to && ClassName(to)
    ensures !DescMentions(RenameDesc(from, to, desc), from)
    decreases |desc|
  {
    if desc == "" {
    } else {
      var n := IndexOf(desc, ';');
      if desc[0] != 'L' {
        DescRenamed(from, to, desc[1..]);
        assert RenameDesc(from, to, desc)[1..] == RenameDesc(from, to, desc[1..]);
      } else if n < |desc| {
        DescRenamed(from, to, desc[n + 1..]);
        assert ';' !in desc[1..n];
        MentionsFirst(RenameName(from, to, desc[1..n]), RenameDesc(from, to, desc[n + 1..]), from);
      }
    }
  }

  lemma {:induction false} TypeRenamed(from: string, to: string, ty: string)
    requires from != to && ClassName(to)
    ensures !TypeMentions(RenameType(from, to, ty), from)
  {
    DescRenamed(from, to, ty);
    if ty != "" && ty[0] == '[' {
      assert RenameDesc(from, to, ty)[0] == '[';
    }
  }

  lemma {:induction false} EventRenamed(from: string, to: string, e: Event)
    requires from != to && ClassName(to)
    ensures !EventMentions(RenameEvent(from, to, e), from)
  {
    match e
    case VisitFrame(shape, _) =>
      forall i | 0 <= i < |shape| ensures !TypeMentions(RenameTypes(from, to, shape)[i], from) {
        TypeRenamed(from, to, shape[i]);
      }
    case VisitMethodInsn(_, owner, _, desc, _) => TypeRenamed(from, to, owner); DescRenamed(from, to, desc);
    case VisitFieldInsn(_, owner, _, desc) => TypeRenamed(from, to, owner); DescRenamed(from, to, desc);
    case VisitTypeInsn(_, ty) => TypeRenamed(from, to, ty);
    case _ =>
  }

  /** After renaming, nothing in the class mentions the old name any more. */
  lemma {:induction false} RenamedMentionsNothing(from: string, c: ClassFile, to: string)
    requires from != to && ClassName(to)
    ensures !ClassMentions(RenameClass(from, c, to), from)
  {
    forall i | 0 <= i < |c.fields| ensures !DescMentions(RenameFields(from, to, c.fields)[i].desc, from) {
      DescRenamed(from, to, c.fields[i].desc);
    }
    forall i | 0 <= i < |c.methods| ensures !MethodMentions(RenameMethods(from, to, c.methods)[i], from) {
      var m := c.methods[i];
      DescRenamed(from, to, m.desc);
      forall j | 0 <= j < |m.body| ensures !EventMentions(RenameEvents(from, to, m.body)[j], from) {
        EventRenamed(from, to, m.body[j]);
      }
    }
  }

  // ---------------------------------------------------------------- references resolve

  predicate DeclaresMethod(c: ClassFile, name: string, desc: string) {
    exists i :: 0 <= i < |c.methods| && c.methods[i].name == name && c.methods[i].desc == desc
  }

  predicate DeclaresField(c: ClassFile, name: string, desc: string) {
    exists i :: 0 <= i < |c.fields| && c.fields[i].name == name && c.fields[i].desc == desc
  }

  /** A reference to a prefixed member of class `cls` by the event `e` finds its member in `c`. */
  predicate RefersWithin(e: Event, cls: string, prefix: string, c: ClassFile) {
    && (e.VisitMethodInsn? && e.owner == cls && StartsWith(e.name, prefix) ==> DeclaresMethod(c, e.name, e.desc))
    && (e.VisitFieldInsn? && e.owner == cls && StartsWith(e.name, prefix) ==> DeclaresField(c, e.name, e.desc))
  }

  lemma {:induction false} PrefixedKeeps(prefix: string, ms: seq<Method>, i: nat)
    requires i < |ms| && StartsWith(ms[i].name, prefix)
    ensures ms[i] in PrefixedMethods(prefix, ms)
  {
    if i == 0 {
    } else {
      PrefixedKeeps(prefix, ms[1..], i - 1);
    }
  }

  lemma {:induction false} PrefixedKeepsField(prefix: string, fs: seq<Field>, i: nat)
    requires i < |fs| && StartsWith(fs[i].name, prefix)
    ensures fs[i] in PrefixedFields(prefix, fs)
  {
    if i == 0 {
    } else {
      PrefixedKeepsField(prefix, fs[1..], i - 1);
    }
  }

  lemma {:induction false} PrefixedFrom(prefix: string, ms: seq<Method>, m: Method)
    requires m in PrefixedMethods(prefix, ms)
    ensures m in ms && StartsWith(m.name, prefix)
  {
    if m != ms[0] || !StartsWith(ms[0].name, prefix) { PrefixedFrom(prefix, ms[1..], m); }
  }

  /** What one of the amendments of a class adds is among the added members. */
  lemma {:induction false} AddedBy(name: string, ams: seq<AmendmentData>, am: AmendmentData)
    requires am in ams && am.classToAmend == name
    ensures forall m :: m in PrefixedMethods(am.prefix, am.members.methods) ==> m in AddedMethods(name, ams)
    ensures forall f :: f in PrefixedFields(am.prefix, am.members.fields) ==> f in AddedFields(name, ams)
  {
    if am != ams[0] { AddedBy(name, ams[1..], am); }
  }

  lemma {:induction false} DeclaredAmong(c: ClassFile, first: seq<Method>, second: seq<Method>, j: nat)
    requires c.methods == first + second && j < |second|
    ensures DeclaresMethod(c, second[j].name, second[j].desc)
  {
    assert c.methods[|first| + j] == second[j];
  }

  /** A method that an amendment's (renamed) helper declares under a prefixed name is declared by the amended class,
      whatever other amendments there are. */
  lemma {:induction false} GraftedMethod(h: string, ams: seq<AmendmentData>, am: AmendmentData, target: ClassFile,
      name: string, desc: string)
    requires am in ams && am.classToAmend == target.name
    requires StartsWith(name, am.prefix) && DeclaresMethod(am.members, name, desc)
    ensures DeclaresMethod(InstrumentClass(h, ams, target), name, desc)
  {
    hide PrefixedMethods, PrefixedFields, AddedMethods, AddedFields;
    var ms := am.members.methods;
    var i :| 0 <= i < |ms| && ms[i].name == name && ms[i].desc == desc;
    PrefixedKeeps(am.prefix, ms, i);
    AddedBy(target.name, ams, am);
    var added := AddedMethods(target.name, ams);
    var j :| 0 <= j < |added| && added[j] == ms[i];
    DeclaredAmong(InstrumentClass(h, ams, target), InstrumentMethods(h, target.methods), InstrumentMethods(h, added),
        j);
  }

  lemma {:induction false} GraftedField(h: string, ams: seq<AmendmentData>, am: AmendmentData, target: ClassFile,
      name: string, desc: string)
    requires am in ams && am.classToAmend == target.name
    requires StartsWith(name, am.prefix) && DeclaresField(am.members, name, desc)
    ensures DeclaresField(InstrumentClass(h, ams, target), name, desc)
  {
    hide PrefixedMethods, PrefixedFields, AddedMethods, AddedFields;
    var fs := am.members.fields;
    var i :| 0 <= i < |fs| && fs[i].name == name && fs[i].desc == desc;
    PrefixedKeepsField(am.prefix, fs, i);
    AddedBy(target.name, ams, am);
    var added := AddedFields(target.name, ams);
    var j :| 0 <= j < |added| && added[j] == fs[i];
    assert InstrumentClass(h, ams, target).fields[|target.fields| + j] == added[j];
  }

  /** In the prefixed methods of the helper, which are the ones that are grafted, a reference to a prefixed member of
      the helper or of the class to amend finds it in the helper. Other references and other methods, such as the
      constructor and its call to the superclass, do not matter. */
  predicate SelfContained(c: ClassFile, to: string, prefix: string) {
    forall i, j :: 0 <= i < |c.methods| && StartsWith(c.methods[i].name, prefix) && 0 <= j < |c.methods[i].body| ==>
      RefersWithin(c.methods[i].body[j], c.name, prefix, c) && RefersWithin(c.methods[i].body[j], to, prefix, c)
  }

  lemma {:induction false} RenamedDeclares(from: string, to: string, c: ClassFile, name: string, desc: string)
    ensures DeclaresMethod(c, name, desc) ==> DeclaresMethod(RenameClass(from, c, to), name, RenameDesc(from, to, desc))
    ensures DeclaresField(c, name, desc) ==> DeclaresField(RenameClass(from, c, to), name, RenameDesc(from, to, desc))
  {
    var r := RenameClass(from, c, to);
    if DeclaresMethod(c, name, desc) {
      var i :| 0 <= i < |c.methods| && c.methods[i].name == name && c.methods[i].desc == desc;
      assert r.methods[i] == RenameMethod(from, to, c.methods[i]);
    }
    if DeclaresField(c, name, desc) {
      var i :| 0 <= i < |c.fields| && c.fields[i].name == name && c.fields[i].desc == desc;
      assert r.fields[i] == RenameField(from, to, c.fields[i]);
    }
  }

  lemma {:induction false} RenamedFrom(from: string, to: string, ty: string)
    requires ClassName(to) && RenameType(from, to, ty) == to
    ensures ty == from || ty == to
  {}

  /** The amendment that grafts `helper` onto the class `to`. */
  function AmendmentOf(to: string, prefix: string, helper: ClassFile): AmendmentData {
    AmendmentData(to, prefix, RenameClass(helper.name, helper, to))
  }

  /** A reference of the helper to a prefixed member, renamed, finds its member in the amended class. */
  lemma {:induction false} SelfReferenceResolves(h: string, ams: seq<AmendmentData>, helper: ClassFile,
      target: ClassFile, prefix: string, was: Event)
    requires helper.name != target.name && ClassName(target.name)
    requires RefersWithin(was, helper.name, prefix, helper) && RefersWithin(was, target.name, prefix, helper)
    requires AmendmentOf(target.name, prefix, helper) in ams
    ensures RefersWithin(RenameEvent(helper.name, target.name, was), target.name, prefix,
        InstrumentClass(h, ams, target))
  {
    hide InstrumentClass;
    var from, to := helper.name, target.name;
    var e := RenameEvent(from, to, was);
    if (e.VisitMethodInsn? || e.VisitFieldInsn?) && e.owner == to && StartsWith(e.name, prefix) {
      RenamedFrom(from, to, was.owner);
      RenamedDeclares(from, to, helper, was.name, was.desc);
      var am := AmendmentOf(to, prefix, helper);
      if e.VisitMethodInsn? {
        GraftedMethod(h, ams, am, target, e.name, e.desc);
      } else {
        GraftedField(h, ams, am, target, e.name, e.desc);
      }
    }
  }

  /** Where an event of a grafted method comes from. */
  lemma {:induction false} GraftedEventSource(helper: ClassFile, to: string, prefix: string, m: Method, e: Event)
          returns (i: nat, j: nat)
    requires m in PrefixedMethods(prefix, RenameClass(helper.name, helper, to).methods) && e in m.body
    ensures i < |helper.methods| && j < |helper.methods[i].body| && StartsWith(helper.methods[i].name, prefix)
    ensures e == RenameEvent(helper.name, to, helper.methods[i].body[j])
  {
    var methods := RenameClass(helper.name, helper, to).methods;
    PrefixedFrom(prefix, methods, m);
    i :| 0 <= i < |methods| && methods[i] == m;
    j :| 0 <= j < |m.body| && m.body[j] == e;
  }

  /** Link closure, with any number of amendments. After renaming, filtering by prefix and grafting: no method that
      this amendment grafts mentions its helper class, and each of its references to a prefixed member of the amended
      class finds a member of the amended class. */
  lemma {:induction false} GraftIsClosed(h: string, ams: seq<AmendmentData>, helper: ClassFile, target: ClassFile,
      prefix: string, m: Method, e: Event)
    requires helper.name != target.name && ClassName(target.name) && ClassName(helper.name)
    requires SelfContained(helper, target.name, prefix) && AmendmentOf(target.name, prefix, helper) in ams
    requires m in PrefixedMethods(prefix, RenameClass(helper.name, helper, target.name).methods) && e in m.body
    ensures !EventMentions(e, helper.name)
    ensures RefersWithin(e, target.name, prefix, InstrumentClass(h, ams, target))
  {
    var i, j := GraftedEventSource(helper, target.name, prefix, m, e);
    var was := helper.methods[i].body[j];
    assert RefersWithin(was, helper.name, prefix, helper) && RefersWithin(was, target.name, prefix, helper);
    EventRenamed(helper.name, target.name, was);
    SelfReferenceResolves(h, ams, helper, target, prefix, was);
  }

  /** Every call that instrumentation inserts, into any class, resolves in the handler class if one of its amendments
      declares the two handler methods. */
  lemma {:induction false} InsertedCallsResolve(ams: seq<AmendmentData>, am: AmendmentData, target: ClassFile,
      c: ClassFile, i: nat, e: Event)
    requires am in ams && am.classToAmend == target.name
    requires StartsWith(ENTER_NAME, am.prefix) && StartsWith(EXIT_NAME, am.prefix)
    requires DeclaresMethod(am.members, ENTER_NAME, VOID_DESC) && DeclaresMethod(am.members, EXIT_NAME, VOID_DESC)
    requires i < |c.methods| && e in InstrumentMethods(target.name, c.methods)[i].body && e !in c.methods[i].body
    ensures e.VisitMethodInsn? && e.owner == target.name
    ensures DeclaresMethod(InstrumentClass(target.name, ams, target), e.name, e.desc)
  {
    hide InstrumentClass;
    NewEventsAreCalls(target.name, c.methods[i].body, e);
    GraftedMethod(target.name, ams, am, target, e.name, e.desc);
  }

  lemma {:induction false} NewEventsAreCalls(h: string, es: seq<Event>, e: Event)
    requires e in InstrumentEvents(h, es) && e !in es
    ensures IsHandlerCall(h, e)
  {
    assert es == [es[0]] + es[1..];
    if e !in InstrumentEvent(h, es[0]) {
      NewEventsAreCalls(h, es[1..], e);
    }
  }
}

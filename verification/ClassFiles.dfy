/**
  Class files as ASM's visitors see them, and the three transformations of `phasicj/agent/instr` as functions:
  instrumenting a class, renaming a class, and choosing the members an amendment adds.
 */
module ClassFiles {
  import opened Bytecode
  import opened InsertedCalls

  datatype Field = Field(access: nat, name: string, desc: string)
  datatype Method = Method(access: nat, name: string, desc: string, body: seq<Event>)
  datatype ClassFile = ClassFile(name: string, superName: string, fields: seq<Field>, methods: seq<Method>)

  /** `members` is the class the members come from, after it was renamed to `classToAmend`. */
  datatype AmendmentData = AmendmentData(classToAmend: string, prefix: string, members: ClassFile)

  // ---------------------------------------------------------------- instrumenting

  function InstrumentMethod(h: string, m: Method): Method {
    m.(body := InstrumentEvents(h, m.body))
  }

  function InstrumentMethods(h: string, ms: seq<Method>): (r: seq<Method>)
    ensures |r| == |ms| && forall i :: 0 <= i < |r| ==> r[i] == InstrumentMethod(h, ms[i])
  {
    seq(|ms|, i requires 0 <= i < |ms| => InstrumentMethod(h, ms[i]))
  }

  predicate StartsWith(s: string, prefix: string) {
    prefix <= s
  }

  const RT_PREFIX := "phasicj/agent/rt/"

  /** The agent's own classes, which the class file load hook leaves alone. */
  predicate IsRuntimeClass(name: string) {
    StartsWith(name, RT_PREFIX)
  }

  function PrefixedFields(prefix: string, fs: seq<Field>): seq<Field> {
    if fs == [] then []
    else (if StartsWith(fs[0].name, prefix) then [fs[0]] else []) + PrefixedFields(prefix, fs[1..])
  }

  function PrefixedMethods(prefix: string, ms: seq<Method>): seq<Method> {
    if ms == [] then []
    else (if StartsWith(ms[0].name, prefix) then [ms[0]] else []) + PrefixedMethods(prefix, ms[1..])
  }

  function AddedFields(name: string, ams: seq<AmendmentData>): seq<Field> {
    if ams == [] then []
    else (if ams[0].classToAmend == name then PrefixedFields(ams[0].prefix, ams[0].members.fields) else [])
         + AddedFields(name, ams[1..])
  }

  function AddedMethods(name: string, ams: seq<AmendmentData>): seq<Method> {
    if ams == [] then []
    else (if ams[0].classToAmend == name then PrefixedMethods(ams[0].prefix, ams[0].members.methods) else [])
         + AddedMethods(name, ams[1..])
  }

  /** The class that `MonitorInsnInstrumenter.instrument` writes. Members of an amendment go through the instrumenter
      like the members of the class itself. */
  function InstrumentClass(h: string, ams: seq<AmendmentData>, c: ClassFile): ClassFile {
    ClassFile(c.name, c.superName,
              c.fields + AddedFields(c.name, ams),
              InstrumentMethods(h, c.methods) + InstrumentMethods(h, AddedMethods(c.name, ams)))
  }

  lemma {:induction false} InstrumentMethodsConcat(h: string, a: seq<Method>, b: seq<Method>)
    ensures InstrumentMethods(h, a + b) == InstrumentMethods(h, a) + InstrumentMethods(h, b)
  {}

  // ---------------------------------------------------------------- loading

  /** A class with the members its amendments add, as they were before instrumentation. */
  function Graft(ams: seq<AmendmentData>, c: ClassFile): ClassFile {
    ClassFile(c.name, c.superName, c.fields + AddedFields(c.name, ams), c.methods + AddedMethods(c.name, ams))
  }

  /** The load hook leaves alone the agent's classes and those that the instrumenter rejects. */
  predicate Skipped(rejected: set<string>, name: string) {
    IsRuntimeClass(name) || name in rejected
  }

  /** The classes of a program with their grafted members, but without inserted calls. */
  function Grafted(ams: seq<AmendmentData>, rejected: set<string>, cs: seq<ClassFile>): (r: seq<ClassFile>)
    ensures |r| == |cs|
    ensures forall i :: 0 <= i < |r| ==> r[i] == if Skipped(rejected, cs[i].name) then cs[i] else Graft(ams, cs[i])
  {
    seq(|cs|, i requires 0 <= i < |cs| => if Skipped(rejected, cs[i].name) then cs[i] else Graft(ams, cs[i]))
  }

  /** The classes of a program as the load hook leaves them. */
  function Loaded(h: string, ams: seq<AmendmentData>, rejected: set<string>, cs: seq<ClassFile>): (r: seq<ClassFile>)
    ensures |r| == |cs|
    ensures forall i :: 0 <= i < |r| ==> r[i] == if Skipped(rejected, cs[i].name) then cs[i]
        else InstrumentClass(h, ams, cs[i])
  {
    seq(|cs|, i requires 0 <= i < |cs| => if Skipped(rejected, cs[i].name) then cs[i]
        else InstrumentClass(h, ams, cs[i]))
  }

  /** Loading a class is grafting it and then instrumenting every method, grafted or not. Only classes whose name
      begins with `phasicj/agent/rt/` and those that the instrumenter rejects stay as they are. */
  lemma {:induction false} LoadedIsInstrumented(h: string, ams: seq<AmendmentData>, rejected: set<string>,
          cs: seq<ClassFile>, i: nat)
    requires i < |cs|
    ensures var before, after := Grafted(ams, rejected, cs)[i], Loaded(h, ams, rejected, cs)[i];
            if "phasicj/agent/rt/" <= cs[i].name || cs[i].name in rejected then before == cs[i] && after == cs[i]
            else
              && before == Graft(ams, cs[i]) && after.name == before.name == cs[i].name
              && after.superName == cs[i].superName && after.fields == before.fields
              && after.methods == InstrumentMethods(h, before.methods)
  {
    InstrumentMethodsConcat(h, cs[i].methods, AddedMethods(cs[i].name, ams));
  }

  // ---------------------------------------------------------------- renaming

  function IndexOf(s: string, c: char): (i: nat)
    ensures i <= |s| && (i < |s| ==> s[i] == c) && forall j :: 0 <= j < i ==> s[j] != c
  {
    if s == [] || s[0] == c then 0
    else
      var i := 1 + IndexOf(s[1..], c);
      assert forall j :: 1 <= j < i ==> s[j] == s[1..][j - 1];
      i
  }

  function RenameName(from: string, to: string, name: string): string {
    if name == from then to else name
  }

  /** Descriptors name classes as `L<name>;`. */
  function RenameDesc(from: string, to: string, desc: string): string
    decreases |desc|
  {
    if desc == "" then ""
    else if desc[0] != 'L' then [desc[0]] + RenameDesc(from, to, desc[1..])
    else
      var n := IndexOf(desc, ';');
      if n == |desc| then desc
      else "L" + RenameName(from, to, desc[1..n]) + ";" + RenameDesc(from, to, desc[n + 1..])
  }

  /** An operand that is either an internal name or an array descriptor. */
  function RenameType(from: string, to: string, ty: string): string {
    if ty != "" && ty[0] == '[' then RenameDesc(from, to, ty) else RenameName(from, to, ty)
  }

  function RenameTypes(from: string, to: string, tys: seq<string>): (r: seq<string>)
    ensures |r| == |tys| && forall i :: 0 <= i < |r| ==> r[i] == RenameType(from, to, tys[i])
  {
    seq(|tys|, i requires 0 <= i < |tys| => RenameType(from, to, tys[i]))
  }

  function RenameEvent(from: string, to: string, e: Event): Event {
    match e
    case VisitTryCatch(s, n, c, ty) => VisitTryCatch(s, n, c, RenameName(from, to, ty))
    case VisitFrame(shape, news) => VisitFrame(RenameTypes(from, to, shape), news)
    case VisitMethodInsn(opcode, owner, name, desc, itf) =>
      VisitMethodInsn(opcode, RenameType(from, to, owner), name, RenameDesc(from, to, desc), itf)
    case VisitFieldInsn(opcode, owner, name, desc) =>
      VisitFieldInsn(opcode, RenameType(from, to, owner), name, RenameDesc(from, to, desc))
    case VisitTypeInsn(opcode, ty) => VisitTypeInsn(opcode, RenameType(from, to, ty))
    case _ => e
  }

  function RenameEvents(from: string, to: string, es: seq<Event>): (r: seq<Event>)
    ensures |r| == |es| && forall i :: 0 <= i < |r| ==> r[i] == RenameEvent(from, to, es[i])
  {
    seq(|es|, i requires 0 <= i < |es| => RenameEvent(from, to, es[i]))
  }

  function RenameField(from: string, to: string, f: Field): Field {
    f.(desc := RenameDesc(from, to, f.desc))
  }

  function RenameMethod(from: string, to: string, m: Method): Method {
    m.(desc := RenameDesc(from, to, m.desc), body := RenameEvents(from, to, m.body))
  }

  function RenameFields(from: string, to: string, fs: seq<Field>): (r: seq<Field>)
    ensures |r| == |fs| && forall i :: 0 <= i < |r| ==> r[i] == RenameField(from, to, fs[i])
  {
    seq(|fs|, i requires 0 <= i < |fs| => RenameField(from, to, fs[i]))
  }

  function RenameMethods(from: string, to: string, ms: seq<Method>): (r: seq<Method>)
    ensures |r| == |ms| && forall i :: 0 <= i < |r| ==> r[i] == RenameMethod(from, to, ms[i])
  {
    seq(|ms|, i requires 0 <= i < |ms| => RenameMethod(from, to, ms[i]))
  }

  function RenameClass(from: string, c: ClassFile, to: string): ClassFile {
    ClassFile(RenameName(from, to, c.name), RenameName(from, to, c.superName),
              RenameFields(from, to, c.fields), RenameMethods(from, to, c.methods))
  }
}

/**
  The visitor chain of `phasicj/agent/instr`: callbacks that change the writer behind them. Each callback is proved
  against the functions of `ClassFiles`.
 */
module Instrumenter {
  import opened Bytecode
  import opened InsertedCalls
  import opened ClassFiles
  import Linking
  import Renaming

  /** The method writer that `ClassWriter.visitMethod` hands out. */
  class MethodWriter {
    const access: nat
    const name: string
    const desc: string
    var body: seq<Event>

    constructor (access: nat, name: string, desc: string)
      ensures this.access == access && this.name == name && this.desc == desc && body == []
    {
      this.access, this.name, this.desc := access, name, desc;
      body := [];
    }

    method Emit(e: Event)
      modifies this
      ensures body == old(body) + [e]
    {
      body := body + [e];
    }

    function Written(): Method
      reads this
    {
      Method(access, name, desc, body)
    }
  }

  class ClassWriter {
    var name: string
    var superName: string
    var fields: seq<Field>
    var methods: seq<MethodWriter>

    constructor ()
      ensures methods == [] && fields == []
    {
      name, superName, fields, methods := "", "", [], [];
    }

    function WrittenMethods(): (r: seq<Method>)
      reads this, methods
      ensures |r| == |methods| && forall i :: 0 <= i < |r| ==> r[i] == methods[i].Written()
    {
      seq(|methods|, i requires 0 <= i < |methods| reads this, methods => methods[i].Written())
    }

    /** The class written so far. */
    function Written(): ClassFile
      reads this, methods
    {
      ClassFile(name, superName, fields, WrittenMethods())
    }

    method Visit(name: string, superName: string)
      modifies this`name, this`superName
      ensures this.name == name && this.superName == superName
    {
      this.name, this.superName := name, superName;
    }

    method VisitField(f: Field)
      modifies this`fields
      ensures fields == old(fields) + [f]
    {
      fields := fields + [f];
    }

    method VisitMethod(access: nat, name: string, desc: string) returns (mv: MethodWriter)
      modifies this`methods
      ensures fresh(mv) && methods == old(methods) + [mv]
      ensures mv.Written() == Method(access, name, desc, [])
    {
      mv := new MethodWriter(access, name, desc);
      methods := methods + [mv];
    }
  }

  class MethodInstrumenter {
    const mv: MethodWriter
    const eventHandlerClass: string

    constructor (mv: MethodWriter, eventHandlerClass: string)
      ensures this.mv == mv && this.eventHandlerClass == eventHandlerClass
    {
      this.mv, this.eventHandlerClass := mv, eventHandlerClass;
    }

    method VisitInsn(opcode: nat)
      modifies mv
      ensures mv.body == old(mv.body) + InstrumentEvent(eventHandlerClass, Event.VisitInsn(opcode))
      ensures var name := if opcode == 194 then "phasicj$agent$rt$monitorEnter" else "phasicj$agent$rt$monitorExit";
              mv.body == old(mv.body)
                  + (if opcode == 194 || opcode == 195
                     then [VisitMethodInsn(184, eventHandlerClass, name, "()V", false)] else [])
                  + [Event.VisitInsn(opcode)]
    {
      if opcode == MONITORENTER {
        mv.Emit(VisitMethodInsn(INVOKESTATIC, eventHandlerClass, ENTER_NAME, VOID_DESC, false));
      }
      if opcode == MONITOREXIT {
        mv.Emit(VisitMethodInsn(INVOKESTATIC, eventHandlerClass, EXIT_NAME, VOID_DESC, false));
      }
      mv.Emit(Event.VisitInsn(opcode));
    }

    /** Every callback that is not overridden is passed on. */
    method Visit(e: Event)
      modifies mv
      ensures mv.body == old(mv.body) + InstrumentEvent(eventHandlerClass, e)
    {
      if e.VisitInsn? {
        VisitInsn(e.opcode);
      } else {
        mv.Emit(e);
      }
    }
  }

  lemma {:induction false} PrefixedStep(h: string, prefix: string, ms: seq<Method>, i: nat)
    requires i < |ms|
    ensures InstrumentMethods(h, PrefixedMethods(prefix, ms[i..])) ==
            (if StartsWith(ms[i].name, prefix) then [InstrumentMethod(h, ms[i])] else [])
            + InstrumentMethods(h, PrefixedMethods(prefix, ms[i + 1..]))
  {
    assert ms[i..][1..] == ms[i + 1..];
    InstrumentMethodsConcat(h, if StartsWith(ms[i].name, prefix) then [ms[i]] else [],
        PrefixedMethods(prefix, ms[i + 1..]));
  }

  lemma {:induction false} AddedStep(h: string, name: string, ds: seq<AmendmentData>, i: nat)
    requires i < |ds|
    ensures ds[i].classToAmend != name ==>
              AddedFields(name, ds[i..]) == AddedFields(name, ds[i + 1..]) &&
              InstrumentMethods(h, AddedMethods(name, ds[i..])) == InstrumentMethods(h, AddedMethods(name, ds[i + 1..]))
    ensures ds[i].classToAmend == name ==>
              AddedFields(name, ds[i..]) == PrefixedFields(ds[i].prefix, ds[i].members.fields)
                  + AddedFields(name, ds[i + 1..]) &&
              InstrumentMethods(h, AddedMethods(name, ds[i..])) ==
                InstrumentMethods(h, PrefixedMethods(ds[i].prefix, ds[i].members.methods))
                    + InstrumentMethods(h, AddedMethods(name, ds[i + 1..]))
  {
    assert ds[i..][1..] == ds[i + 1..];
    InstrumentMethodsConcat(h, if ds[i].classToAmend == name then PrefixedMethods(ds[i].prefix, ds[i].members.methods)
        else [],
                            AddedMethods(name, ds[i + 1..]));
  }

  class Amendment {
    const classToAmend: string
    const amendmentMembersPrefix: string
    const amendWithClass: ClassFile
    const amendWithClassName: string

    constructor (classToAmend: string, prefix: string, amendWithClass: ClassFile, amendWithClassName: string)
      ensures Data() == AmendmentData(classToAmend, prefix,
          RenameClass(amendWithClassName, amendWithClass, classToAmend))
      ensures Linking.ClassName(classToAmend) && amendWithClassName != classToAmend ==>
                !Linking.ClassMentions(this.amendWithClass, amendWithClassName)
      ensures Linking.ClassName(classToAmend) && Linking.ClassName(amendWithClassName)
              && !Linking.ClassMentions(amendWithClass, classToAmend) ==>
                RenameClass(classToAmend, this.amendWithClass, amendWithClassName) == amendWithClass
      ensures var was, now := amendWithClass.methods, this.amendWithClass.methods;
              |now| == |was| && forall i :: 0 <= i < |was| ==>
                  now[i].access == was[i].access && now[i].name == was[i].name && |now[i].body| == |was[i].body|
    {
      hide RenameFields, RenameMethods, Linking.ClassMentions;
      if Linking.ClassName(classToAmend) {
        if amendWithClassName != classToAmend {
          Linking.RenamedMentionsNothing(amendWithClassName, amendWithClass, classToAmend);
        }
        if Linking.ClassName(amendWithClassName) && !Linking.ClassMentions(amendWithClass, classToAmend) {
          Renaming.RenameRoundTrip(amendWithClassName, amendWithClass, classToAmend);
        }
      }
      Renaming.MembersKept(amendWithClassName, amendWithClass, classToAmend);
      this.classToAmend := classToAmend;
      this.amendmentMembersPrefix := prefix;
      this.amendWithClass := RenameClass(amendWithClassName, amendWithClass, classToAmend);
      this.amendWithClassName := amendWithClassName;
    }

    function Data(): AmendmentData {
      AmendmentData(classToAmend, amendmentMembersPrefix, amendWithClass)
    }
  }

  function Datas(ams: seq<Amendment>): (r: seq<AmendmentData>)
    ensures |r| == |ams| && forall i :: 0 <= i < |r| ==> r[i] == ams[i].Data()
  {
    seq(|ams|, i requires 0 <= i < |ams| => ams[i].Data())
  }

  class ClassInstrumenter {
    const cv: ClassWriter
    const eventHandlerClass: string
    const amendments: seq<Amendment>
    var className: string

    constructor (cv: ClassWriter, eventHandlerClass: string, amendments: seq<Amendment>)
      ensures this.cv == cv && this.eventHandlerClass == eventHandlerClass && this.amendments == amendments
    {
      this.cv, this.eventHandlerClass, this.amendments := cv, eventHandlerClass, amendments;
      className := "";
    }

    method Visit(name: string, superName: string)
      modifies this, cv`name, cv`superName
      ensures className == name && cv.name == name && cv.superName == superName
    {
      className := name;
      cv.Visit(name, superName);
    }

    method VisitMethod(access: nat, name: string, desc: string) returns (mi: MethodInstrumenter)
      modifies cv`methods
      ensures cv.methods == old(cv.methods) + [mi.mv] && fresh(mi.mv)
      ensures mi.eventHandlerClass == eventHandlerClass && mi.mv.Written() == Method(access, name, desc, [])
    {
      var delegateTo := cv.VisitMethod(access, name, desc);
      mi := new MethodInstrumenter(delegateTo, eventHandlerClass);
    }

    /** A reader's callbacks for one method: the method header, then every event of the body. */
    method ReadMethod(m: Method)
      modifies cv`methods
      ensures cv.WrittenMethods() == old(cv.WrittenMethods()) + [InstrumentMethod(eventHandlerClass, m)]
    {
      var mi := VisitMethod(m.access, m.name, m.desc);
      ghost var before := old(cv.WrittenMethods());
      for i := 0 to |m.body|
        invariant cv.methods == old(cv.methods) + [mi.mv] && fresh(mi.mv)
        invariant mi.mv.body == InstrumentEvents(eventHandlerClass, m.body[..i])
        invariant forall k :: 0 <= k < |before| ==> old(cv.methods)[k].Written() == before[k]
      {
        InstrumentConcat(eventHandlerClass, m.body[..i], [m.body[i]]);
        assert m.body[..i + 1] == m.body[..i] + [m.body[i]];
        assert InstrumentEvents(eventHandlerClass, [m.body[i]]) == InstrumentEvent(eventHandlerClass, m.body[i]);
        mi.Visit(m.body[i]);
      }
      assert m.body[..|m.body|] == m.body;
      assert cv.WrittenMethods() == before + [InstrumentMethod(eventHandlerClass, m)];
    }

    method AcceptFields(prefix: string, fs: seq<Field>)
      modifies cv`fields
      ensures cv.fields == old(cv.fields) + PrefixedFields(prefix, fs)
    {
      for i := 0 to |fs|
        invariant cv.fields + PrefixedFields(prefix, fs[i..]) == old(cv.fields) + PrefixedFields(prefix, fs)
      {
        assert fs[i..][1..] == fs[i + 1..];
        if StartsWith(fs[i].name, prefix) {
          cv.VisitField(fs[i]);
        }
      }
    }

    method AcceptMethods(prefix: string, ms: seq<Method>)
      modifies cv`methods
      ensures cv.WrittenMethods() == old(cv.WrittenMethods())
          + InstrumentMethods(eventHandlerClass, PrefixedMethods(prefix, ms))
    {
      ghost var before, goal := cv.WrittenMethods(),
          cv.WrittenMethods() + InstrumentMethods(eventHandlerClass, PrefixedMethods(prefix, ms));
      for i := 0 to |ms|
        invariant cv.WrittenMethods() + InstrumentMethods(eventHandlerClass, PrefixedMethods(prefix, ms[i..])) == goal
      {
        PrefixedStep(eventHandlerClass, prefix, ms, i);
        if StartsWith(ms[i].name, prefix) {
          ReadMethod(ms[i]);
        }
      }
    }

    /** `ClassMembersAmendment.accept` with this visitor as the sink: only members with the prefix are forwarded. */
    method AcceptAmendment(a: Amendment)
      modifies cv`fields, cv`methods
      ensures cv.fields == old(cv.fields) + PrefixedFields(a.amendmentMembersPrefix, a.amendWithClass.fields)
      ensures cv.WrittenMethods() == old(cv.WrittenMethods())
              + InstrumentMethods(eventHandlerClass,
                  PrefixedMethods(a.amendmentMembersPrefix, a.amendWithClass.methods))
    {
      AcceptFields(a.amendmentMembersPrefix, a.amendWithClass.fields);
      AcceptMethods(a.amendmentMembersPrefix, a.amendWithClass.methods);
    }

    /** The fields and methods written so far, followed by what is still to come. */
    ghost predicate Remaining(fields: seq<Field>, methods: seq<Method>, fieldGoal: seq<Field>, methodGoal: seq<Method>)
      reads cv, cv.methods
    {
      cv.fields + fields == fieldGoal && cv.WrittenMethods() + methods == methodGoal
    }

    method AmendWith(a: Amendment, ghost laterFields: seq<Field>, ghost laterMethods: seq<Method>,
                     ghost fieldGoal: seq<Field>, ghost methodGoal: seq<Method>)
      requires a.classToAmend == className
      requires Remaining(PrefixedFields(a.amendmentMembersPrefix, a.amendWithClass.fields) + laterFields,
                         InstrumentMethods(eventHandlerClass,
                             PrefixedMethods(a.amendmentMembersPrefix, a.amendWithClass.methods)) + laterMethods,
                         fieldGoal, methodGoal)
      modifies cv`fields, cv`methods
      ensures Remaining(laterFields, laterMethods, fieldGoal, methodGoal)
    {
      AcceptAmendment(a);
    }

    method VisitEnd()
      modifies cv`fields, cv`methods
      ensures cv.fields == old(cv.fields) + AddedFields(className, Datas(amendments))
      ensures cv.WrittenMethods() == old(cv.WrittenMethods())
              + InstrumentMethods(eventHandlerClass, AddedMethods(className, Datas(amendments)))
    {
      ghost var ds := Datas(amendments);
      ghost var fieldGoal := cv.fields + AddedFields(className, ds);
      ghost var methodGoal := cv.WrittenMethods() + InstrumentMethods(eventHandlerClass, AddedMethods(className, ds));
      assert ds[0..] == ds;
      for i := 0 to |amendments|
        invariant Remaining(AddedFields(className, ds[i..]),
            InstrumentMethods(eventHandlerClass, AddedMethods(className, ds[i..])),
                            fieldGoal, methodGoal)
      {
        AddedStep(eventHandlerClass, className, ds, i);
        assert ds[i] == amendments[i].Data();
        if className == amendments[i].classToAmend {
          AmendWith(amendments[i], AddedFields(className, ds[i + 1..]),
                    InstrumentMethods(eventHandlerClass, AddedMethods(className, ds[i + 1..])), fieldGoal, methodGoal);
        }
      }
    }
  }

  class MonitorInsnInstrumenter {
    const amendments: seq<Amendment>
    const eventHandlerClass: string

    constructor (eventHandlerClass: string, amendments: seq<Amendment>)
      ensures this.eventHandlerClass == eventHandlerClass && this.amendments == amendments
    {
      this.eventHandlerClass, this.amendments := eventHandlerClass, amendments;
    }

    /** Read a class, send its events through the visitor chain, and return what was written. */
    method Instrument(c: ClassFile) returns (r: ClassFile)
      ensures r == InstrumentClass(eventHandlerClass, Datas(amendments), c)
    {
      var writer := new ClassWriter();
      var instrumenter := new ClassInstrumenter(writer, eventHandlerClass, amendments);
      instrumenter.Visit(c.name, c.superName);
      for i := 0 to |c.fields|
        invariant writer.methods == [] && writer.fields == c.fields[..i]
        invariant writer.name == c.name && writer.superName == c.superName && instrumenter.className == c.name
      {
        writer.VisitField(c.fields[i]);
      }
      for i := 0 to |c.methods|
        invariant writer.fields == c.fields && writer.name == c.name && writer.superName == c.superName
        invariant instrumenter.className == c.name
        invariant writer.WrittenMethods() == InstrumentMethods(eventHandlerClass, c.methods[..i])
      {
        instrumenter.ReadMethod(c.methods[i]);
        assert c.methods[..i + 1] == c.methods[..i] + [c.methods[i]];
      }
      assert c.methods[..|c.methods|] == c.methods;
      instrumenter.VisitEnd();
      r := writer.Written();
    }
  }
}

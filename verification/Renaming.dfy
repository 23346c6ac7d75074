/**
  Renaming a class, described without the functions that do it: what is replaced, what stays, and that renaming back
  gives the class there was before.
 */
module Renaming {
  import opened Bytecode
  import opened ClassFiles
  import opened Linking

  // ---------------------------------------------------------------- descriptors

  /** The classes a descriptor names, in order. */
  function ClassNames(desc: string): seq<string>
    decreases |desc|
  {
    if desc == "" then []
    else if desc[0] != 'L' then ClassNames(desc[1..])
    else
      var n := IndexOf(desc, ';');
      if n == |desc| then [] else [desc[1..n]] + ClassNames(desc[n + 1..])
  }

  /** A descriptor with the names of its classes left out. */
  function Outline(desc: string): string
    decreases |desc|
  {
    if desc == "" then ""
    else if desc[0] != 'L' then [desc[0]] + Outline(desc[1..])
    else
      var n := IndexOf(desc, ';');
      if n == |desc| then desc else "L;" + Outline(desc[n + 1..])
  }

  /** The descriptor begins with a class name that is closed by a semicolon. */
  predicate NamesFirst(desc: string) {
    desc != "" && desc[0] == 'L' && IndexOf(desc, ';') < |desc|
  }

  lemma {:induction false} PlainFirst(desc: string)
    requires desc != "" && desc[0] != 'L'
    ensures Outline(desc)[1..] == Outline(desc[1..]) && ClassNames(desc) == ClassNames(desc[1..])
    ensures desc == [desc[0]] + desc[1..]
  {}

  lemma {:induction false} OutlineStarts(desc: string)
    ensures desc == "" <==> Outline(desc) == ""
    ensures desc != "" ==> Outline(desc)[0] == desc[0]
    ensures desc != "" && desc[0] == 'L' ==>
              if NamesFirst(desc) then |Outline(desc)| > 1 && Outline(desc)[1] == ';'
              else Outline(desc) == desc && ';' !in desc
  {}

  lemma {:induction false} NameFirst(desc: string) returns (name: string, rest: string)
    requires NamesFirst(desc)
    ensures |rest| < |desc| && desc == "L" + (name + (";" + rest))
    ensures Outline(desc)[2..] == Outline(rest) && ClassNames(desc) != []
        && ClassNames(desc)[0] == name && ClassNames(desc)[1..] == ClassNames(rest)
  {
    var n := IndexOf(desc, ';');
    name, rest := desc[1..n], desc[n + 1..];
  }

  /** A descriptor is its outline and the names in it. */
  lemma {:induction false} OutlineAndNames(a: string, b: string)
    requires Outline(a) == Outline(b) && ClassNames(a) == ClassNames(b)
    ensures a == b
    decreases |a|
  {
    hide Outline, ClassNames;
    OutlineStarts(a);
    OutlineStarts(b);
    if a == "" {
    } else if a[0] != 'L' {
      PlainFirst(a);
      PlainFirst(b);
      OutlineAndNames(a[1..], b[1..]);
    } else if NamesFirst(a) && NamesFirst(b) {
      var name, rest := NameFirst(a);
      var name', rest' := NameFirst(b);
      OutlineAndNames(rest, rest');
    }
  }

  /** The names in a descriptor, with `to` for `from`. */
  predicate Replaced(from: string, to: string, names: seq<string>, names': seq<string>) {
    |names'| == |names| && forall i :: 0 <= i < |names| ==> names'[i] == if names[i] == from then to else names[i]
  }

  lemma {:induction false} NamedFirst(name: string, rest: string)
    requires ';' !in name
    ensures var d := "L" + name + ";" + rest;
            Outline(d) == "L;" + Outline(rest) && ClassNames(d) == [name] + ClassNames(rest)
  {
    var d := "L" + name + ";" + rest;
    IndexAfter("L" + name, rest);
    assert d[1..|name| + 1] == name && d[|name| + 2..] == rest;
  }

  lemma {:induction false} PlainThen(c: char, rest: string)
    requires c != 'L'
    ensures Outline([c] + rest) == [c] + Outline(rest) && ClassNames([c] + rest) == ClassNames(rest)
  {
    assert ([c] + rest)[1..] == rest;
  }

  lemma {:induction false} ReplacedFirst(from: string, to: string, name: string, names: seq<string>,
      names': seq<string>)
    requires Replaced(from, to, names, names')
    ensures Replaced(from, to, [name] + names, [RenameName(from, to, name)] + names')
  {}

  lemma {:induction false} RenamePlain(from: string, to: string, desc: string)
    requires desc != "" && desc[0] != 'L'
    ensures RenameDesc(from, to, desc) == [desc[0]] + RenameDesc(from, to, desc[1..])
  {}

  lemma {:induction false} RenameNamed(from: string, to: string, desc: string) returns (name: string, rest: string)
    requires NamesFirst(desc)
    ensures |rest| < |desc| && ';' !in name && desc == "L" + name + ";" + rest
    ensures RenameDesc(from, to, desc) == "L" + RenameName(from, to, name) + ";" + RenameDesc(from, to, rest)
  {
    var n := IndexOf(desc, ';');
    name, rest := desc[1..n], desc[n + 1..];
  }

  lemma {:induction false} RenameOpen(from: string, to: string, desc: string)
    requires desc == "" || (desc[0] == 'L' && !NamesFirst(desc))
    ensures RenameDesc(from, to, desc) == desc && ClassNames(desc) == []
  {}

  /** Renaming keeps the outline of a descriptor and puts the new name for the old one. */
  lemma {:induction false} DescRenamedIs(from: string, to: string, desc: string)
    requires ';' !in to
    ensures Outline(RenameDesc(from, to, desc)) == Outline(desc)
    ensures Replaced(from, to, ClassNames(desc), ClassNames(RenameDesc(from, to, desc)))
    decreases |desc|
  {
    hide RenameDesc, Outline, ClassNames, Replaced, NamesFirst;
    if desc == "" || (desc[0] == 'L' && !NamesFirst(desc)) {
      RenameOpen(from, to, desc);
      NothingReplaced(from, to);
    } else if desc[0] != 'L' {
      RenamePlain(from, to, desc);
      DescRenamedIs(from, to, desc[1..]);
      PlainThen(desc[0], RenameDesc(from, to, desc[1..]));
      PlainThen(desc[0], desc[1..]);
      assert desc == [desc[0]] + desc[1..];
    } else {
      var name, rest := RenameNamed(from, to, desc);
      DescRenamedIs(from, to, rest);
      NamedFirst(name, rest);
      NamedFirst(RenameName(from, to, name), RenameDesc(from, to, rest));
      ReplacedFirst(from, to, name, ClassNames(rest), ClassNames(RenameDesc(from, to, rest)));
    }
  }

  lemma {:induction false} NothingReplaced(from: string, to: string)
    ensures Replaced(from, to, [], [])
  {}

  lemma {:induction false} MentionedIsNamed(desc: string, cls: string)
    ensures DescMentions(desc, cls) <==> cls in ClassNames(desc)
    decreases |desc|
  {
    if desc == "" {
    } else if desc[0] != 'L' {
      MentionedIsNamed(desc[1..], cls);
    } else {
      var n := IndexOf(desc, ';');
      if n < |desc| { MentionedIsNamed(desc[n + 1..], cls); }
    }
  }

  lemma {:induction false} DescUnmentioned(from: string, to: string, desc: string)
    requires ';' !in to && !DescMentions(desc, from)
    ensures RenameDesc(from, to, desc) == desc
  {
    hide RenameDesc, Outline, ClassNames, DescMentions;
    DescRenamedIs(from, to, desc);
    MentionedIsNamed(desc, from);
    var names := ClassNames(desc);
    assert forall i :: 0 <= i < |names| ==> names[i] in names;
    OutlineAndNames(RenameDesc(from, to, desc), desc);
  }

  lemma {:induction false} DescRoundTrip(from: string, to: string, desc: string)
    requires ';' !in from && ';' !in to && !DescMentions(desc, to)
    ensures RenameDesc(to, from, RenameDesc(from, to, desc)) == desc
  {
    hide RenameDesc, Outline, ClassNames, DescMentions;
    var r := RenameDesc(from, to, desc);
    DescRenamedIs(from, to, desc);
    DescRenamedIs(to, from, r);
    MentionedIsNamed(desc, to);
    var names := ClassNames(desc);
    assert forall i :: 0 <= i < |names| ==> names[i] in names;
    OutlineAndNames(RenameDesc(to, from, r), desc);
  }

  // ---------------------------------------------------------------- types and events

  lemma {:induction false} ArrayStaysArray(from: string, to: string, ty: string)
    requires ClassName(to)
    ensures RenameType(from, to, ty) != "" && RenameType(from, to, ty)[0] == '[' <==> ty != "" && ty[0] == '['
  {}

  lemma {:induction false} TypeUnmentioned(from: string, to: string, ty: string)
    requires ClassName(to) && !TypeMentions(ty, from)
    ensures RenameType(from, to, ty) == ty
  {
    if ty != "" && ty[0] == '[' { DescUnmentioned(from, to, ty); }
  }

  lemma {:induction false} TypeRoundTrip(from: string, to: string, ty: string)
    requires ClassName(from) && ClassName(to) && !TypeMentions(ty, to)
    ensures RenameType(to, from, RenameType(from, to, ty)) == ty
  {
    ArrayStaysArray(from, to, ty);
    if ty != "" && ty[0] == '[' { DescRoundTrip(from, to, ty); }
  }

  /** An event stays the same callback with the same opcode, member, operands, labels and limits. A class it names is
      replaced if it is the old one and kept if it is not; only descriptors and array types can change otherwise. */
  lemma {:induction false} EventKept(from: string, to: string, e: Event)
    requires ClassName(from)
    ensures var r := RenameEvent(from, to, e);
            match e
            case VisitTryCatch(start, end, handler, ty) =>
              r == VisitTryCatch(start, end, handler, if ty == from then to else ty)
            case VisitFrame(shape, news) => r.VisitFrame? && |r.shape| == |shape| && r.news == news
            case VisitMethodInsn(opcode, owner, name, _, itf) =>
              && r.VisitMethodInsn? && r.opcode == opcode && r.name == name && r.itf == itf
              && (ClassName(owner) ==> r.owner == if owner == from then to else owner)
            case VisitFieldInsn(opcode, owner, name, _) =>
              && r.VisitFieldInsn? && r.opcode == opcode && r.name == name
              && (ClassName(owner) ==> r.owner == if owner == from then to else owner)
            case VisitTypeInsn(opcode, ty) =>
              r.VisitTypeInsn? && r.opcode == opcode && (ClassName(ty) ==> r.ty == if ty == from then to else ty)
            case _ => r == e
  {}

  /** What does not mention the old name is not changed at all. */
  lemma {:induction false} EventUnmentioned(from: string, to: string, e: Event)
    requires ClassName(to) && !EventMentions(e, from)
    ensures RenameEvent(from, to, e) == e
  {
    match e
    case VisitFrame(shape, _) =>
      forall i | 0 <= i < |shape| ensures RenameTypes(from, to, shape)[i] == shape[i] {
        TypeUnmentioned(from, to, shape[i]);
      }
      assert RenameTypes(from, to, shape) == shape;
    case VisitMethodInsn(_, owner, _, desc, _) => TypeUnmentioned(from, to, owner); DescUnmentioned(from, to, desc);
    case VisitFieldInsn(_, owner, _, desc) => TypeUnmentioned(from, to, owner); DescUnmentioned(from, to, desc);
    case VisitTypeInsn(_, ty) => TypeUnmentioned(from, to, ty);
    case _ =>
  }

  lemma {:induction false} EventRoundTrip(from: string, to: string, e: Event)
    requires ClassName(from) && ClassName(to) && !EventMentions(e, to)
    ensures RenameEvent(to, from, RenameEvent(from, to, e)) == e
  {
    match e
    case VisitFrame(shape, _) =>
      var once := RenameTypes(from, to, shape);
      forall i | 0 <= i < |shape| ensures RenameTypes(to, from, once)[i] == shape[i] {
        TypeRoundTrip(from, to, shape[i]);
      }
      assert RenameTypes(to, from, once) == shape;
    case VisitMethodInsn(_, owner, _, desc, _) => TypeRoundTrip(from, to, owner); DescRoundTrip(from, to, desc);
    case VisitFieldInsn(_, owner, _, desc) => TypeRoundTrip(from, to, owner); DescRoundTrip(from, to, desc);
    case VisitTypeInsn(_, ty) => TypeRoundTrip(from, to, ty);
    case _ =>
  }

  // ---------------------------------------------------------------- members and classes

  /** Members keep their access and name and the number of their events; the class and its superclass are renamed like
      every other class. */
  lemma {:induction false} MembersKept(from: string, c: ClassFile, to: string)
    ensures var r := RenameClass(from, c, to);
            && r.name == (if c.name == from then to else c.name)
            && r.superName == (if c.superName == from then to else c.superName)
            && |r.fields| == |c.fields| && |r.methods| == |c.methods|
            && (forall i :: 0 <= i < |c.fields| ==>
                  r.fields[i].access == c.fields[i].access && r.fields[i].name == c.fields[i].name)
            && (forall i :: 0 <= i < |c.methods| ==>
                  && r.methods[i].access == c.methods[i].access && r.methods[i].name == c.methods[i].name
                  && |r.methods[i].body| == |c.methods[i].body|)
  {}

  lemma {:induction false} MethodRoundTrip(from: string, to: string, m: Method)
    requires ClassName(from) && ClassName(to) && !MethodMentions(m, to)
    ensures RenameMethod(to, from, RenameMethod(from, to, m)) == m
  {
    hide RenameEvent, RenameDesc;
    DescRoundTrip(from, to, m.desc);
    var once := RenameEvents(from, to, m.body);
    forall j | 0 <= j < |m.body| ensures RenameEvents(to, from, once)[j] == m.body[j] {
      EventRoundTrip(from, to, m.body[j]);
    }
    assert RenameEvents(to, from, once) == m.body;
  }

  /** Renaming a class to a name that it does not mention loses nothing: renaming it back gives the same class. */
  lemma {:induction false} RenameRoundTrip(from: string, c: ClassFile, to: string)
    requires ClassName(from) && ClassName(to) && !ClassMentions(c, to)
    ensures RenameClass(to, RenameClass(from, c, to), from) == c
  {
    hide RenameMethod, RenameDesc, MethodMentions, DescMentions;
    var r := RenameClass(from, c, to);
    forall i | 0 <= i < |c.fields| ensures RenameFields(to, from, r.fields)[i] == c.fields[i] {
      DescRoundTrip(from, to, c.fields[i].desc);
    }
    forall i | 0 <= i < |c.methods| ensures RenameMethods(to, from, r.methods)[i] == c.methods[i] {
      MethodRoundTrip(from, to, c.methods[i]);
    }
    assert RenameFields(to, from, r.fields) == c.fields && RenameMethods(to, from, r.methods) == c.methods;
  }

  /** And a class that does not mention the old name stays the same. */
  lemma {:induction false} RenameUnmentioned(from: string, c: ClassFile, to: string)
    requires ClassName(to) && !ClassMentions(c, from)
    ensures RenameClass(from, c, to) == c
  {
    hide RenameDesc, RenameEvent, DescMentions, EventMentions;
    forall i | 0 <= i < |c.fields| ensures RenameFields(from, to, c.fields)[i] == c.fields[i] {
      DescUnmentioned(from, to, c.fields[i].desc);
    }
    forall i | 0 <= i < |c.methods| ensures RenameMethods(from, to, c.methods)[i] == c.methods[i] {
      var m := c.methods[i];
      assert !MethodMentions(m, from);
      DescUnmentioned(from, to, m.desc);
      forall j | 0 <= j < |m.body| ensures RenameEvents(from, to, m.body)[j] == m.body[j] {
        EventUnmentioned(from, to, m.body[j]);
      }
      assert RenameEvents(from, to, m.body) == m.body;
    }
    assert RenameFields(from, to, c.fields) == c.fields && RenameMethods(from, to, c.methods) == c.methods;
  }
}

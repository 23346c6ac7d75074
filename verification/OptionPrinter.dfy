/**
  Writing option lists. Whatever the spacing and quoting, what is written is read back; and nothing else is read: a
  string is accepted with given options exactly when it is one of their written forms.
 */
module OptionPrinter {
  import opened Wrappers
  import opened Pest
  import opened OptionGrammar
  import opened OptionSpec

  /** Where spaces go and whether the value is quoted. */
  datatype Style = Style(before: nat, afterName: nat, afterEquals: nat, quoted: bool, afterOpening: nat,
      afterClosing: nat)

  function Spaces(n: nat): (r: string)
    ensures |r| == n && forall c :: c in r ==> c == ' '
  {
    if n == 0 then "" else " " + Spaces(n - 1)
  }

  /** Options that can be written: values keep trailing spaces but cannot begin with one. */
  predicate Writable(o: AgentOpt) {
    && o.name != "" && (forall i :: 0 <= i < |o.name| ==> IsNameChar(o.name[i]))
    && (o.value.Some? ==> WritableValue(o.value.value))
  }

  predicate WritableValue(v: string) {
    (forall i :: 0 <= i < |v| ==> IsArgChar(v[i])) && (v == "" || v[0] != ' ')
  }

  function WriteQuoted(v: string, st: Style): string {
    "\"" + (Spaces(st.afterOpening) + (v + ("\"" + Spaces(st.afterClosing))))
  }

  function WriteValue(v: string, st: Style): string {
    Spaces(st.afterEquals) + (if st.quoted then WriteQuoted(v, st) else v)
  }

  function WriteRest(value: Option<string>, st: Style): string {
    if value.None? then "" else "=" + WriteValue(value.value, st)
  }

  function Write(o: AgentOpt, st: Style): string {
    Spaces(st.before) + (o.name + (Spaces(st.afterName) + WriteRest(o.value, st)))
  }

  function WriteList(os: seq<AgentOpt>, sts: seq<Style>): string
    requires |os| == |sts|
  {
    if os == [] then ""
    else if |os| == 1 then Write(os[0], sts[0])
    else Write(os[0], sts[0]) + ("," + WriteList(os[1..], sts[1..]))
  }

  // ---------------------------------------------------------------- spaces and runs

  lemma {:induction false} TrimSpaces(n: nat, x: string)
    ensures TrimLeft(Spaces(n) + x) == TrimLeft(x)
  {
    if n > 0 {
      assert (Spaces(n) + x)[1..] == Spaces(n - 1) + x;
      TrimSpaces(n - 1, x);
    } else {
      assert Spaces(n) + x == x;
    }
  }

  lemma {:induction false} TrimmedWasSpaces(s: string)
    ensures s == Spaces(|s| - |TrimLeft(s)|) + TrimLeft(s)
  {
    if s == "" {
    } else if s[0] == ' ' {
      TrimmedWasSpaces(s[1..]);
      assert s == " " + s[1..];
      assert " " + (Spaces(|s| - 1 - |TrimLeft(s)|) + TrimLeft(s)) == (" " + Spaces(|s| - 1 - |TrimLeft(s)|))
          + TrimLeft(s);
    } else {
      assert Spaces(0) + s == s;
    }
  }

  lemma {:induction false} RunOf(p: char -> bool, a: string, b: string)
    requires (forall i :: 0 <= i < |a| ==> p(a[i])) && (b != "" ==> !p(b[0]))
    ensures RunLength(p, a + b) == |a| && (a + b)[..|a|] == a && (a + b)[|a|..] == b
  {
    var s := a + b;
    assert forall i :: 0 <= i < |a| ==> s[i] == a[i];
    assert b != "" ==> s[|a|] == b[0];
    RunLengthUnique(p, s, |a|);
  }

  lemma {:induction false} RunIs(p: char -> bool, s: string)
    ensures var n := RunLength(p, s); s == s[..n] + s[n..] && forall i :: 0 <= i < n ==> p(s[..n][i])
  {
    RunLengthIs(p, s);
  }

  // ---------------------------------------------------------------- one option

  lemma {:induction false} QuotedTail(v: string, n: nat)
    requires WritableValue(v)
    ensures var x := v + ("\"" + Spaces(n));
            TrimLeft(x) == x && ArgLength(x) == |v| && x[|v|] == '"' && TrimLeft(x[|v| + 1..]) == ""
  {
    var closing := "\"" + Spaces(n);
    RunOf(IsArgChar, v, closing);
    assert (v + closing)[|v|] == '"';
    assert (v + closing)[|v| + 1..] == Spaces(n);
    TrimSpaces(n, "");
    assert Spaces(n) + "" == Spaces(n);
  }

  lemma {:induction false} ReadWrittenQuoted(v: string, st: Style)
    requires WritableValue(v)
    ensures ReadValue(WriteQuoted(v, st)) == Some(v)
  {
    var x := v + ("\"" + Spaces(st.afterClosing));
    assert WriteQuoted(v, st)[1..] == Spaces(st.afterOpening) + x;
    TrimSpaces(st.afterOpening, x);
    QuotedTail(v, st.afterClosing);
    assert x[..|v|] == v;
  }

  lemma {:induction false} ReadWrittenValue(v: string, st: Style)
    requires WritableValue(v)
    ensures ReadValue(TrimLeft(WriteValue(v, st))) == Some(v)
  {
    TrimSpaces(st.afterEquals, if st.quoted then WriteQuoted(v, st) else v);
    if st.quoted {
      ReadWrittenQuoted(v, st);
    } else {
      RunOf(IsArgChar, v, "");
      assert v + "" == v;
      assert v != "" ==> IsArgChar(v[0]);
    }
  }

  /** Every written form of an option is read back as that option. */
  lemma {:induction false} ReadWritten(o: AgentOpt, st: Style)
    requires Writable(o)
    ensures ReadPiece(Write(o, st)) == Some(o)
  {
    var rest := WriteRest(o.value, st);
    var tail := Spaces(st.afterName) + rest;
    TrimSpaces(st.before, o.name + tail);
    assert TrimLeft(o.name + tail) == o.name + tail by {
      assert (o.name + tail)[0] == o.name[0] && IsNameChar(o.name[0]);
    }
    assert tail != "" ==> !IsNameChar(tail[0]) by {
      if tail != "" && st.afterName > 0 { assert tail[0] == Spaces(st.afterName)[0]; }
    }
    RunOf(IsNameChar, o.name, tail);
    TrimSpaces(st.afterName, rest);
    if o.value.Some? {
      assert rest[1..] == WriteValue(o.value.value, st);
      ReadWrittenValue(o.value.value, st);
    }
  }

  lemma {:induction false} BlankWasSpaces(s: string)
    requires TrimLeft(s) == ""
    ensures s == Spaces(|s|)
  {
    TrimmedWasSpaces(s);
    assert Spaces(|s|) + "" == Spaces(|s|);
  }

  lemma {:induction false} ArgIsWritable(w: string)
    requires w == "" || w[0] != ' '
    ensures WritableValue(w[..ArgLength(w)])
  {
    RunIs(IsArgChar, w);
  }

  lemma {:induction false} PutTogether(v: string, w: string, k: nat, open: nat, close: nat)
    requires v != "" && v[0] == '"' && v[1..] == Spaces(open) + w
    requires k < |w| && w[k] == '"' && w[k + 1..] == Spaces(close)
    ensures v == WriteQuoted(w[..k], Style(0, 0, 0, true, open, close))
  {
    assert v == "\"" + v[1..];
    assert w == w[..k] + ("\"" + w[k + 1..]);
  }

  lemma {:induction false} QuotedWasWritten(v: string) returns (st: Style)
    requires ReadValue(v).Some? && v != "" && v[0] == '"'
    ensures WritableValue(ReadValue(v).value)
    ensures st.quoted && v == WriteQuoted(ReadValue(v).value, st)
  {
    hide WriteQuoted, WritableValue, RunLength, Spaces;
    var w := TrimLeft(v[1..]);
    var k := ArgLength(w);
    TrimDropsSpaces(v[1..]);
    ArgIsWritable(w);
    TrimmedWasSpaces(v[1..]);
    BlankWasSpaces(w[k + 1..]);
    st := Style(0, 0, 0, true, |v[1..]| - |w|, |w[k + 1..]|);
    PutTogether(v, w, k, st.afterOpening, st.afterClosing);
  }

  lemma {:induction false} ValueWasWritten(v: string)
    requires ReadValue(v).Some? && (v == "" || v[0] != ' ')
    ensures WritableValue(ReadValue(v).value)
    ensures exists st: Style :: v == if st.quoted then WriteQuoted(ReadValue(v).value, st) else ReadValue(v).value
  {
    if v != "" && v[0] == '"' {
      var st := QuotedWasWritten(v);
    } else {
      RunIs(IsArgChar, v);
      assert v[..|v|] == v;
      var st := Style(0, 0, 0, false, 0, 0);
      assert !st.quoted;
    }
  }

  lemma {:induction false} RestWasWritten(name: string, r: string) returns (st: Style)
    requires ReadRest(name, r).Some? && (r == "" || r[0] != ' ')
    ensures ReadRest(name, r).value.name == name
    ensures var value := ReadRest(name, r).value.value;
            r == WriteRest(value, st) && (value.Some? ==> WritableValue(value.value))
  {
    if r == "" {
      st := Style(0, 0, 0, false, 0, 0);
    } else {
      var v := TrimLeft(r[1..]);
      ValueWasWritten(v);
      var s: Style :| v == if s.quoted then WriteQuoted(ReadValue(v).value, s) else ReadValue(v).value;
      TrimmedWasSpaces(r[1..]);
      st := s.(afterEquals := |r[1..]| - |v|);
      assert r == "=" + r[1..];
      assert WriteQuoted(ReadValue(v).value, st) == WriteQuoted(ReadValue(v).value, s);
    }
  }

  /** Only written forms are read. */
  lemma {:induction false} WasWritten(p: string) returns (st: Style)
    requires ReadPiece(p).Some?
    ensures Writable(ReadPiece(p).value) && p == Write(ReadPiece(p).value, st)
  {
    var q := TrimLeft(p);
    var n := NameLength(q);
    var r := TrimLeft(q[n..]);
    TrimmedWasSpaces(p);
    TrimmedWasSpaces(q[n..]);
    RunIs(IsNameChar, q);
    var s := RestWasWritten(q[..n], r);
    st := s.(before := |p| - |q|, afterName := |q[n..]| - |r|);
    var value := ReadPiece(p).value.value;
    SameRest(value, s, st);
    assert q == q[..n] + (Spaces(st.afterName) + WriteRest(value, st));
  }

  lemma {:induction false} SameRest(value: Option<string>, s: Style, st: Style)
    requires st.afterEquals == s.afterEquals && st.quoted == s.quoted && st.afterOpening == s.afterOpening
        && st.afterClosing == s.afterClosing
    ensures WriteRest(value, s) == WriteRest(value, st)
  {}

  // ---------------------------------------------------------------- whole lists

  lemma {:induction false} WrittenHasNoComma(o: AgentOpt, st: Style)
    requires Writable(o)
    ensures ',' !in Write(o, st)
  {
    assert ',' !in o.name;
    assert ',' !in WriteRest(o.value, st) by {
      if o.value.Some? {
        assert ',' !in o.value.value;
        assert ',' !in WriteQuoted(o.value.value, st);
      }
    }
  }

  ghost predicate AllWritable(os: seq<AgentOpt>) {
    forall i :: 0 <= i < |os| ==> Writable(os[i])
  }

  lemma {:induction false} SplitAppend(a: string, b: string)
    requires ',' !in a
    ensures Split(a) == [a] && Split(a + ("," + b)) == [a] + Split(b)
  {
    var s := a + ("," + b);
    RunOf(c => c != ',', a, "," + b);
    assert s[|a| + 1..] == b;
    RunOf(c => c != ',', a, "");
    assert a + "" == a;
  }

  lemma {:induction false} ReadOne(o: AgentOpt, p: string)
    requires ',' !in p && ReadPiece(p) == Some(o)
    ensures ReadPieces(Split(p)) == Some([o])
  {
    SplitAppend(p, "");
    ReadPiecesCons(p, []);
    assert [p] + [] == [p] && [o] + [] == [o];
  }

  lemma {:induction false} ReadMore(o: AgentOpt, p: string, os: seq<AgentOpt>, rest: string)
    requires ',' !in p && ReadPiece(p) == Some(o) && ReadPieces(Split(rest)) == Some(os)
    ensures ReadPieces(Split(p + ("," + rest))) == Some([o] + os)
  {
    SplitAppend(p, rest);
    ReadPiecesCons(p, Split(rest));
  }

  /** Every written form of a list is read back as that list. */
  lemma {:induction false} ReadWrittenList(os: seq<AgentOpt>, sts: seq<Style>)
    requires |os| == |sts| && os != [] && AllWritable(os)
    ensures ReadPieces(Split(WriteList(os, sts))) == Some(os)
  {
    WrittenHasNoComma(os[0], sts[0]);
    ReadWritten(os[0], sts[0]);
    WriteCons(os[0], sts[0], os[1..], sts[1..]);
    assert os == [os[0]] + os[1..] && sts == [sts[0]] + sts[1..];
    if |os| == 1 {
      ReadOne(os[0], Write(os[0], sts[0]));
    } else {
      ReadWrittenList(os[1..], sts[1..]);
      ReadMore(os[0], Write(os[0], sts[0]), os[1..], WriteList(os[1..], sts[1..]));
    }
  }

  lemma {:induction false} WrittenListNotBlank(os: seq<AgentOpt>, sts: seq<Style>)
    requires |os| == |sts| && os != [] && AllWritable(os)
    ensures !Blank(WriteList(os, sts))
  {
    var p := Write(os[0], sts[0]);
    WrittenNotBlank(os[0], sts[0], if |os| == 1 then "" else "," + WriteList(os[1..], sts[1..]));
    assert p + "" == p;
  }

  lemma {:induction false} WrittenNotBlank(o: AgentOpt, st: Style, t: string)
    requires Writable(o)
    ensures !Blank(Write(o, st) + t)
  {
    var x := o.name + (Spaces(st.afterName) + WriteRest(o.value, st)) + t;
    assert Write(o, st) + t == Spaces(st.before) + x;
    TrimSpaces(st.before, x);
    assert x[0] == o.name[0] && IsNameChar(o.name[0]);
  }

  lemma {:induction false} WriteCons(o: AgentOpt, st: Style, os: seq<AgentOpt>, sts: seq<Style>)
    requires |os| == |sts|
    ensures WriteList([o] + os, [st] + sts) == if os == [] then Write(o, st)
        else Write(o, st) + ("," + WriteList(os, sts))
  {
    assert ([o] + os)[1..] == os && ([st] + sts)[1..] == sts;
  }

  lemma {:induction false} RejoinAtComma(s: string)
    requires CommaAt(s) < |s|
    ensures s == s[..CommaAt(s)] + ("," + s[CommaAt(s) + 1..]) && s[CommaAt(s)..][1..] == s[CommaAt(s) + 1..]
  {
    CutAtComma(s);
  }

  lemma {:induction false} ListWasWritten(s: string) returns (sts: seq<Style>)
    requires ReadPieces(Split(s)).Some?
    ensures var os := ReadPieces(Split(s)).value;
            os != [] && AllWritable(os) && |sts| == |os| && s == WriteList(os, sts)
    decreases |s|
  {
    hide ReadPiece, Write, Writable;
    var n := CommaAt(s);
    SplitHead(s);
    var o := ReadPiece(s[..n]).value;
    var st := WasWritten(s[..n]);
    if n == |s| {
      sts := [st];
      assert s[..n] == s;
      WriteCons(o, st, [], []);
    } else {
      var t := s[n + 1..];
      RejoinAtComma(s);
      var rest := ListWasWritten(t);
      sts := [st] + rest;
      WriteCons(o, st, ReadPieces(Split(t)).value, rest);
    }
  }

  /** Print and parse: the grammar reads the options `os` from a string exactly when the string writes `os` in some
      style, or is blank when there are none. */
  lemma {:induction false} AcceptedIffWritten(s: string, os: seq<AgentOpt>)
    ensures GrammarOptions(s) == Some(os) <==>
            if os == [] then Blank(s)
            else AllWritable(os) && exists sts: seq<Style> :: |sts| == |os| && s == WriteList(os, sts)
  {
    GrammarMeetsSpec(s);
    if os != [] && AllWritable(os) {
      forall sts: seq<Style> | |sts| == |os| && s == WriteList(os, sts) ensures SpecOptions(s) == Some(os) {
        ReadWrittenList(os, sts);
        WrittenListNotBlank(os, sts);
      }
    }
    if ReadPieces(Split(s)).Some? {
      var sts := ListWasWritten(s);
    }
  }
}

/**
  The agent's configuration and how option strings change it (`phasicj/agent/conf/src/lib.rs`). A panic of the source is
  an outcome here, together with what the fields hold at that moment.
 */
module AgentConf {
  import opened Wrappers
  import opened OptionGrammar
  import opened OptionSpec
  import OptionPrinter
  import Pest

  datatype Conf = Conf(verbose: bool, phasicjExec: Option<string>, dumpBefore: bool, dumpAfter: bool)
  datatype Applied = Done(conf: Conf) | Panic(conf: Conf)

  const DEFAULTS := Conf(false, None, false, false)

  const VERBOSE := "verbose"
  const PHASICJ_EXEC := "phasicj_exec"
  const DUMP_BEFORE := "debug_dump_classes_before_instr"
  const DUMP_AFTER := "debug_dump_classes_after_instr"

  /** None is a panic. */
  function EvalBool(v: Option<string>): Option<bool> {
    if v.None? || v.value == "true" then Some(true)
    else if v.value == "false" then Some(false)
    else None
  }

  function ApplyOption(c: Conf, o: AgentOpt): Applied {
    if o.name == VERBOSE then
      var b := EvalBool(o.value);
      if b.None? then Panic(c) else Done(c.(verbose := b.value))
    else if o.name == PHASICJ_EXEC then
      if o.value.None? || o.value.value == "" then Panic(c) else Done(c.(phasicjExec := o.value))
    else if o.name == DUMP_BEFORE then
      var b := EvalBool(o.value);
      if b.None? then Panic(c) else Done(c.(dumpBefore := b.value))
    else if o.name == DUMP_AFTER then
      var b := EvalBool(o.value);
      if b.None? then Panic(c) else Done(c.(dumpAfter := b.value))
    else Panic(c)
  }

  function ApplyOptions(c: Conf, os: seq<AgentOpt>): Applied
    decreases |os|
  {
    if os == [] then Done(c)
    else
      var r := ApplyOption(c, os[0]);
      if r.Panic? then r else ApplyOptions(r.conf, os[1..])
  }

  /** The whole string is parsed before any option is applied. */
  function ApplyString(c: Conf, s: string): Applied {
    var os := GrammarOptions(s);
    if os.None? then Panic(c) else ApplyOptions(c, os.value)
  }

  class PjAgentConf {
    var verbose: bool
    var phasicjExec: Option<string>
    var dumpBefore: bool
    var dumpAfter: bool

    constructor NewWithDefaults()
      ensures Value() == DEFAULTS && !verbose && phasicjExec == None && !dumpBefore && !dumpAfter
    {
      verbose, phasicjExec, dumpBefore, dumpAfter := false, None, false, false;
    }

    function Value(): Conf
      reads this
    {
      Conf(verbose, phasicjExec, dumpBefore, dumpAfter)
    }

    method ApplyAgentOption(name: string, value: Option<string>) returns (ok: bool)
      modifies this
      ensures ApplyOption(old(Value()), AgentOpt(name, value)) == if ok then Done(Value()) else Panic(Value())
      ensures name == "verbose" ==>
                && (ok <==> value in {None, Some("true"), Some("false")})
                && verbose == (if ok then value != Some("false") else old(verbose))
      ensures name == "phasicj_exec" ==>
                && (ok <==> value != None && value != Some(""))
                && phasicjExec == (if ok then value else old(phasicjExec))
      ensures name == "debug_dump_classes_before_instr" ==>
                && (ok <==> value in {None, Some("true"), Some("false")})
                && dumpBefore == (if ok then value != Some("false") else old(dumpBefore))
      ensures name == "debug_dump_classes_after_instr" ==>
                && (ok <==> value in {None, Some("true"), Some("false")})
                && dumpAfter == (if ok then value != Some("false") else old(dumpAfter))
      ensures name !in {"verbose", "phasicj_exec", "debug_dump_classes_before_instr", "debug_dump_classes_after_instr"}
          ==> !ok
      ensures !ok ==> Value() == old(Value())
    {
      ok := false;
      if name == "verbose" {
        var b := EvalBool(value);
        if b.Some? { verbose := b.value; ok := true; }
      } else if name == "phasicj_exec" {
        if value.Some? && value.value != "" { phasicjExec := value; ok := true; }
      } else if name == "debug_dump_classes_before_instr" {
        var b := EvalBool(value);
        if b.Some? { dumpBefore := b.value; ok := true; }
      } else if name == "debug_dump_classes_after_instr" {
        var b := EvalBool(value);
        if b.Some? { dumpAfter := b.value; ok := true; }
      }
    }

    method ApplyAgentOptionsListStr(s: string) returns (ok: bool)
      modifies this
      ensures ApplyString(old(Value()), s) == if ok then Done(Value()) else Panic(Value())
    {
      var os := GrammarOptions(s);
      if os.None? { return false; }
      ghost var goal := ApplyOptions(Value(), os.value);
      for i := 0 to |os.value|
        invariant ApplyOptions(Value(), os.value[i..]) == goal
      {
        assert os.value[i..][1..] == os.value[i + 1..];
        ok := ApplyAgentOption(os.value[i].name, os.value[i].value);
        if !ok { return; }
      }
      ok := true;
    }
  }

  // ---------------------------------------------------------------- valid options, last one wins

  /** A flag is given without a value, as `true` or as `false`; the path is given and not empty; there are no others. */
  predicate ValidOption(o: AgentOpt) {
    if o.name in {"verbose", "debug_dump_classes_before_instr", "debug_dump_classes_after_instr"}
    then o.value in {None, Some("true"), Some("false")}
    else o.name == "phasicj_exec" && o.value != None && o.value != Some("")
  }

  predicate AllValid(os: seq<AgentOpt>) { forall i :: 0 <= i < |os| ==> ValidOption(os[i]) }

  /** The value of the last option called `name`, if there is one. */
  function LastValue(os: seq<AgentOpt>, name: string): Option<Option<string>> {
    if os == [] then None
    else if os[|os| - 1].name == name then Some(os[|os| - 1].value)
    else LastValue(os[..|os| - 1], name)
  }

  function FlagOr(v: Option<Option<string>>, was: bool): bool {
    if v.None? then was else v.value.None? || v.value.value == "true"
  }

  function ExecOr(v: Option<Option<string>>, was: Option<string>): Option<string> {
    if v.None? then was else v.value
  }

  /** The configuration in which each setting is what its last option says, or what `c` says if it has none. */
  function LastSettings(c: Conf, os: seq<AgentOpt>): Conf {
    Conf(FlagOr(LastValue(os, VERBOSE), c.verbose), ExecOr(LastValue(os, PHASICJ_EXEC), c.phasicjExec),
         FlagOr(LastValue(os, DUMP_BEFORE), c.dumpBefore), FlagOr(LastValue(os, DUMP_AFTER), c.dumpAfter))
  }

  lemma {:induction false} ApplyConcat(c: Conf, a: seq<AgentOpt>, b: seq<AgentOpt>)
    ensures ApplyOptions(c, a + b) ==
            if ApplyOptions(c, a).Panic? then ApplyOptions(c, a) else ApplyOptions(ApplyOptions(c, a).conf, b)
    decreases |a|
  {
    if a == [] {
      assert a + b == b;
    } else {
      assert (a + b)[1..] == a[1..] + b;
      if ApplyOption(c, a[0]).Done? { ApplyConcat(ApplyOption(c, a[0]).conf, a[1..], b); }
    }
  }

  lemma {:induction false} NameLengths()
    ensures |"verbose"| == 7 && |"phasicj_exec"| == 12
        && |"debug_dump_classes_before_instr"| == 31 && |"debug_dump_classes_after_instr"| == 30
  {}

  /** What each option does, by its name: three flags that take nothing, `true` or `false`, and a path that must not be
      empty. Every other value and every other name panics. */
  lemma {:induction false} OptionEffect(c: Conf, v: Option<string>)
    ensures v == None || v == Some("true") ==>
              && ApplyOption(c, AgentOpt("verbose", v)) == Done(c.(verbose := true))
              && ApplyOption(c, AgentOpt("debug_dump_classes_before_instr", v)) == Done(c.(dumpBefore := true))
              && ApplyOption(c, AgentOpt("debug_dump_classes_after_instr", v)) == Done(c.(dumpAfter := true))
    ensures v == Some("false") ==>
              && ApplyOption(c, AgentOpt("verbose", v)) == Done(c.(verbose := false))
              && ApplyOption(c, AgentOpt("debug_dump_classes_before_instr", v)) == Done(c.(dumpBefore := false))
              && ApplyOption(c, AgentOpt("debug_dump_classes_after_instr", v)) == Done(c.(dumpAfter := false))
    ensures v != None && v != Some("") ==>
              ApplyOption(c, AgentOpt("phasicj_exec", v)) == Done(c.(phasicjExec := v))
  {
    NameLengths();
    assert |"true"| == 4 && |"false"| == 5;
  }

  /** One option is accepted exactly when it is valid; a panic leaves the configuration as it was. */
  lemma {:induction false} AppliesIffValid(c: Conf, o: AgentOpt)
    ensures ApplyOption(c, o) == Panic(c) <==> !ValidOption(o)
    ensures ApplyOption(c, o).Done? <==> ValidOption(o)
  {
    NameLengths();
    var v := o.value;
    if v.Some? {
      assert v.value == "true" <==> v == Some("true");
      assert v.value == "false" <==> v == Some("false");
      assert v.value == "" <==> v == Some("");
    }
  }

  lemma {:induction false} OneOption(c: Conf, o: AgentOpt)
    ensures ApplyOptions(c, [o]) == ApplyOption(c, o)
  {
    assert [o][1..] == [];
  }

  /** Applying a list succeeds exactly when every option in it is valid, whatever its position. */
  lemma {:induction false} AppliesIffAllValid(c: Conf, os: seq<AgentOpt>)
    ensures ApplyOptions(c, os).Done? <==> AllValid(os)
    decreases |os|
  {
    if os == [] {
    } else {
      AppliesIffValid(c, os[0]);
      assert forall i :: 1 <= i < |os| ==> os[i] == os[1..][i - 1];
      if ApplyOption(c, os[0]).Done? {
        AppliesIffAllValid(ApplyOption(c, os[0]).conf, os[1..]);
        assert AllValid(os) <==> AllValid(os[1..]) by {
          assert AllValid(os) ==> forall i :: 0 <= i < |os[1..]| ==> os[1..][i] == os[i + 1];
        }
      }
    }
  }

  lemma {:induction false} LastOfAppended(os: seq<AgentOpt>, o: AgentOpt, name: string)
    ensures LastValue(os + [o], name) == if o.name == name then Some(o.value) else LastValue(os, name)
  {
    assert (os + [o])[..|os|] == os;
  }

  lemma {:induction false} LastSettingsAppended(c: Conf, os: seq<AgentOpt>, o: AgentOpt)
    requires ApplyOption(LastSettings(c, os), o).Done?
    ensures ApplyOption(LastSettings(c, os), o).conf == LastSettings(c, os + [o])
  {
    LastOfAppended(os, o, VERBOSE);
    LastOfAppended(os, o, PHASICJ_EXEC);
    LastOfAppended(os, o, DUMP_BEFORE);
    LastOfAppended(os, o, DUMP_AFTER);
    assert |VERBOSE| == 7 && |PHASICJ_EXEC| == 12 && |DUMP_BEFORE| == 31 && |DUMP_AFTER| == 30;
  }

  /** A list that is applied leaves each setting as its last option says. */
  lemma {:induction false} LastOneWins(c: Conf, os: seq<AgentOpt>)
    requires ApplyOptions(c, os).Done?
    ensures ApplyOptions(c, os).conf == LastSettings(c, os)
    decreases |os|
  {
    if os == [] {
    } else {
      var n := |os| - 1;
      assert os[..n] + [os[n]] == os;
      ApplyConcat(c, os[..n], [os[n]]);
      LastOneWins(c, os[..n]);
      OneOption(LastSettings(c, os[..n]), os[n]);
      LastSettingsAppended(c, os[..n], os[n]);
    }
  }

  // ---------------------------------------------------------------- composition

  function Joined(s1: string, s2: string): string { s1 + ("," + s2) }

  /** One string after the other; the second is not looked at if the first panics. */
  function ApplyInTurn(c: Conf, s1: string, s2: string): Applied {
    if ApplyString(c, s1).Panic? then ApplyString(c, s1) else ApplyString(ApplyString(c, s1).conf, s2)
  }

  lemma {:induction false} CommaFound(s: string, n: nat)
    requires n < |s| && s[n] == ',' && forall i :: 0 <= i < n ==> s[i] != ','
    ensures CommaAt(s) == n
  {
    Pest.RunLengthUnique(c => c != ',', s, n);
  }

  lemma {:induction false} SplitFirst(s: string)
    ensures Split(s) == if CommaAt(s) == |s| then [s] else [s[..CommaAt(s)]] + Split(s[CommaAt(s) + 1..])
  {}

  lemma {:induction false} SplitJoined(a: string, b: string)
    ensures Split(Joined(a, b)) == Split(a) + Split(b)
    decreases |a|
  {
    hide Split;
    SplitFirst(a);
    SplitFirst(Joined(a, b));
    var n := CommaAt(a);
    Pest.RunLengthIs(c => c != ',', a);
    var s := Joined(a, b);
    if n == |a| {
      CommaFound(s, n);
      assert s[n + 1..] == b && s[..n] == a;
    } else {
      SplitJoined(a[n + 1..], b);
      assert s[n] == a[n];
      CommaFound(s, n);
      assert s[..n] == a[..n];
      assert s[n + 1..] == a[n + 1..] + ("," + b);
      assert [a[..n]] + (Split(a[n + 1..]) + Split(b)) == ([a[..n]] + Split(a[n + 1..])) + Split(b);
    }
  }

  lemma {:induction false} ReadPiecesConcat(a: seq<string>, b: seq<string>)
    ensures ReadPieces(a + b) ==
            if ReadPieces(a).None? || ReadPieces(b).None? then None else Some(ReadPieces(a).value + ReadPieces(b).value)
  {
    if a == [] {
      assert a + b == b;
      assert ReadPieces(b).Some? ==> [] + ReadPieces(b).value == ReadPieces(b).value;
    } else {
      assert (a + b)[1..] == a[1..] + b;
      ReadPiecesConcat(a[1..], b);
      if ReadPiece(a[0]).Some? && ReadPieces(a[1..]).Some? && ReadPieces(b).Some? {
        var x, y, z := [ReadPiece(a[0]).value], ReadPieces(a[1..]).value, ReadPieces(b).value;
        assert (x + y) + z == x + (y + z);
      }
    }
  }

  lemma {:induction false} BlankHasNoComma(s: string)
    requires Blank(s)
    ensures ',' !in s
  {
    if s == "" {
    } else {
      BlankHasNoComma(s[1..]);
      assert s == [s[0]] + s[1..];
    }
  }

  /** A blank string is one piece, and no option. */
  lemma {:induction false} BlankIsNoPiece(s: string)
    requires Blank(s)
    ensures ReadPieces(Split(s)).None?
  {
    BlankHasNoComma(s);
    Pest.RunLengthUnique(c => c != ',', s, |s|);
    assert [s][0] == s;
  }

  /** What the grammar reads from two strings joined by a comma. */
  lemma {:induction false} ReadJoined(s1: string, s2: string)
    ensures var both := GrammarOptions(Joined(s1, s2));
            if Blank(s1) || Blank(s2) || GrammarOptions(s1).None? || GrammarOptions(s2).None? then both.None?
            else both == Some(GrammarOptions(s1).value + GrammarOptions(s2).value)
  {
    GrammarMeetsSpec(s1);
    GrammarMeetsSpec(s2);
    GrammarMeetsSpec(Joined(s1, s2));
    TrimConcat(s1, "," + s2);
    SplitJoined(s1, s2);
    ReadPiecesConcat(Split(s1), Split(s2));
    if Blank(s1) { BlankIsNoPiece(s1); }
    if Blank(s2) { BlankIsNoPiece(s2); }
  }

  /** What an option string must be to be accepted; it does not depend on the configuration. */
  predicate Accepted(s: string) {
    GrammarOptions(s).Some? && AllValid(GrammarOptions(s).value)
  }

  lemma {:induction false} AppliesIffAccepted(c: Conf, s: string)
    ensures ApplyString(c, s).Done? <==> Accepted(s)
  {
    if GrammarOptions(s).Some? { AppliesIffAllValid(c, GrammarOptions(s).value); }
  }

  /** A blank string by itself changes nothing. */
  lemma {:induction false} BlankIsNeutral(c: Conf, s: string)
    requires Blank(s)
    ensures ApplyString(c, s) == Done(c)
  {
    GrammarMeetsSpec(s);
  }

  /** Two strings joined by a comma are applied exactly when neither is blank and they can be applied in turn, and then
      they give the configuration that applying them in turn gives. */
  lemma {:induction false} StringsCompose(c: Conf, s1: string, s2: string)
    ensures var both, turn := ApplyString(c, Joined(s1, s2)), ApplyInTurn(c, s1, s2);
            && (both.Done? <==> !Blank(s1) && !Blank(s2) && turn.Done?)
            && (both.Done? ==> both == turn)
  {
    ReadJoined(s1, s2);
    if GrammarOptions(s1).Some? {
      AppliesIffAllValid(c, GrammarOptions(s1).value);
      if GrammarOptions(s2).Some? {
        ApplyConcat(c, GrammarOptions(s1).value, GrammarOptions(s2).value);
      }
    }
  }

  /** So the law that joining by a comma succeeds when applying in turn does, fails for exactly the strings of which one
      is blank though both are accepted by themselves. */
  lemma {:induction false} CompositionHoldsIff(c: Conf, s1: string, s2: string)
    ensures (ApplyString(c, Joined(s1, s2)).Done? <==> ApplyInTurn(c, s1, s2).Done?) <==>
            !((Blank(s1) || Blank(s2)) && Accepted(s1) && Accepted(s2))
  {
    StringsCompose(c, s1, s2);
    AppliesIffAccepted(c, s1);
    if ApplyString(c, s1).Done? { AppliesIffAccepted(ApplyString(c, s1).conf, s2); }
  }

  /** An input for which the law fails: nothing, and `verbose`. */
  lemma {:induction false} BlankDoesNotCompose(c: Conf)
    ensures ApplyInTurn(c, "", "verbose") == Done(c.(verbose := true)) && ApplyString(c, Joined("", "verbose")).Panic?
  {
    BlankIsNeutral(c, "");
    StringsCompose(c, "", "verbose");
    NamesAreSnakeCase();
    ReadName(VERBOSE);
    OneOption(c, AgentOpt(VERBOSE, None));
    SameOptions(c, [AgentOpt(VERBOSE, None)], VERBOSE);
  }

  /** A name alone is read as that option without value. */
  lemma {:induction false} ReadName(name: string)
    requires SnakeCase(name)
    ensures GrammarOptions(name) == Some([AgentOpt(name, None)])
  {
    var o, st := AgentOpt(name, None), OptionPrinter.Style(0, 0, 0, false, 0, 0);
    assert OptionPrinter.AllWritable([o]);
    assert "" + (name + ("" + "")) == name;
    assert OptionPrinter.WriteList([o], [st]) == name;
    OptionPrinter.AcceptedIffWritten(name, [o]);
  }

  /** A name, an equals sign and a value without surrounding spaces are read as just that. */
  lemma {:induction false} ReadAssignment(name: string, v: string)
    requires SnakeCase(name) && OptionPrinter.WritableValue(v)
    ensures GrammarOptions(name + ("=" + v)) == Some([AgentOpt(name, Some(v))])
  {
    var o, st := AgentOpt(name, Some(v)), OptionPrinter.Style(0, 0, 0, false, 0, 0);
    assert OptionPrinter.Writable(o);
    assert OptionPrinter.AllWritable([o]);
    assert "" + v == v && "" + ("=" + v) == "=" + v && "" + (name + ("=" + v)) == name + ("=" + v);
    assert OptionPrinter.WriteList([o], [st]) == name + ("=" + v);
    OptionPrinter.AcceptedIffWritten(name + ("=" + v), [o]);
  }

  /** Quotes around a value make no difference to it. */
  lemma {:induction false} ReadQuoted(name: string, v: string)
    requires SnakeCase(name) && OptionPrinter.WritableValue(v)
    ensures GrammarOptions(name + ("=\"" + (v + "\""))) == Some([AgentOpt(name, Some(v))])
  {
    var o, st := AgentOpt(name, Some(v)), OptionPrinter.Style(0, 0, 0, true, 0, 0);
    var s := name + ("=\"" + (v + "\""));
    assert OptionPrinter.Writable(o);
    assert OptionPrinter.AllWritable([o]);
    assert "\"" + ("" + (v + ("\"" + ""))) == "\"" + (v + "\"");
    assert "=" + ("" + ("\"" + (v + "\""))) == "=\"" + (v + "\"");
    assert "" + (name + ("" + ("=\"" + (v + "\"")))) == s;
    assert OptionPrinter.WriteList([o], [st]) == s;
    OptionPrinter.AcceptedIffWritten(s, [o]);
  }

  lemma {:induction false} ApplyAssignment(c: Conf, name: string, v: string)
    requires SnakeCase(name) && OptionPrinter.WritableValue(v)
    ensures ApplyString(c, name + ("=" + v)) == ApplyOption(c, AgentOpt(name, Some(v)))
  {
    ReadAssignment(name, v);
    OneOption(c, AgentOpt(name, Some(v)));
    SameOptions(c, [AgentOpt(name, Some(v))], name + ("=" + v));
  }

  /** Option strings with one assignment, from the characters to the configuration. A flag is set by `true`, cleared by
      `false`, and panics on every other value; a path is taken over unless it is empty. */
  lemma {:induction false} AssignmentStrings(c: Conf, v: string)
    requires OptionPrinter.WritableValue(v)
    ensures ApplyString(c, "verbose=" + v) ==
            if v == "true" || v == "false" then Done(c.(verbose := v == "true")) else Panic(c)
    ensures ApplyString(c, "debug_dump_classes_before_instr=" + v) ==
            if v == "true" || v == "false" then Done(c.(dumpBefore := v == "true")) else Panic(c)
    ensures ApplyString(c, "debug_dump_classes_after_instr=" + v) ==
            if v == "true" || v == "false" then Done(c.(dumpAfter := v == "true")) else Panic(c)
    ensures ApplyString(c, "phasicj_exec=" + v) == if v == "" then Panic(c) else Done(c.(phasicjExec := Some(v)))
  {
    hide ApplyString, ApplyOption;
    NamesAreSnakeCase();
    AssignmentText(v);
    ApplyAssignment(c, "verbose", v);
    ApplyAssignment(c, "debug_dump_classes_before_instr", v);
    ApplyAssignment(c, "debug_dump_classes_after_instr", v);
    ApplyAssignment(c, "phasicj_exec", v);
    OptionEffect(c, Some(v));
    OptionsRejected(c, v);
  }

  lemma {:induction false} OptionsRejected(c: Conf, v: string)
    ensures v != "true" && v != "false" ==>
              && ApplyOption(c, AgentOpt("verbose", Some(v))) == Panic(c)
              && ApplyOption(c, AgentOpt("debug_dump_classes_before_instr", Some(v))) == Panic(c)
              && ApplyOption(c, AgentOpt("debug_dump_classes_after_instr", Some(v))) == Panic(c)
    ensures ApplyOption(c, AgentOpt("phasicj_exec", Some(""))) == Panic(c)
  {
    NameLengths();
  }

  lemma {:induction false} AssignmentText(v: string)
    ensures "verbose=" + v == "verbose" + ("=" + v) && "phasicj_exec=" + v == "phasicj_exec" + ("=" + v)
    ensures "debug_dump_classes_before_instr=" + v == "debug_dump_classes_before_instr" + ("=" + v)
    ensures "debug_dump_classes_after_instr=" + v == "debug_dump_classes_after_instr" + ("=" + v)
  {
    assert "verbose=" == "verbose" + "=" && "phasicj_exec=" == "phasicj_exec" + "=";
    assert "debug_dump_classes_before_instr=" == "debug_dump_classes_before_instr" + "=";
    assert "debug_dump_classes_after_instr=" == "debug_dump_classes_after_instr" + "=";
  }

  // ---------------------------------------------------------------- which configurations can arise

  /** Applies strings one after the other, up to the first that panics. */
  function ApplyStrings(c: Conf, ss: seq<string>): Applied
    decreases |ss|
  {
    if ss == [] then Done(c)
    else if ApplyString(c, ss[0]).Panic? then ApplyString(c, ss[0])
    else ApplyStrings(ApplyString(c, ss[0]).conf, ss[1..])
  }

  /** Configurations in which a path, if there is one, is a non-empty string over the argument alphabet that does not
      begin with a space. */
  predicate Storable(c: Conf) {
    c.phasicjExec.None? || (c.phasicjExec.value != "" && OptionPrinter.WritableValue(c.phasicjExec.value))
  }

  lemma {:induction false} OptionsKeepStorable(c: Conf, os: seq<AgentOpt>)
    requires Storable(c) && OptionPrinter.AllWritable(os)
    ensures Storable(ApplyOptions(c, os).conf)
    decreases |os|
  {
    if os == [] {
    } else {
      assert OptionPrinter.Writable(os[0]);
      var r := ApplyOption(c, os[0]);
      assert Storable(r.conf);
      if r.Done? {
        assert OptionPrinter.AllWritable(os[1..]) by {
          assert forall i :: 0 <= i < |os| - 1 ==> os[1..][i] == os[i + 1];
        }
        OptionsKeepStorable(r.conf, os[1..]);
      }
    }
  }

  /** Strings never produce a path that cannot be stored, not even when they panic half way. */
  lemma {:induction false} StringsKeepStorable(c: Conf, ss: seq<string>)
    requires Storable(c)
    ensures Storable(ApplyStrings(c, ss).conf)
    decreases |ss|
  {
    if ss == [] {
    } else {
      var os := GrammarOptions(ss[0]);
      if os.Some? {
        OptionPrinter.AcceptedIffWritten(ss[0], os.value);
        OptionsKeepStorable(c, os.value);
      }
      if ApplyString(c, ss[0]).Done? { StringsKeepStorable(ApplyString(c, ss[0]).conf, ss[1..]); }
    }
  }

  function FlagOption(name: string, b: bool): AgentOpt {
    AgentOpt(name, Some(if b then "true" else "false"))
  }

  function FlagOptions(c: Conf): seq<AgentOpt> {
    [FlagOption(VERBOSE, c.verbose), FlagOption(DUMP_BEFORE, c.dumpBefore), FlagOption(DUMP_AFTER, c.dumpAfter)]
  }

  function ExecOptions(c: Conf): seq<AgentOpt> {
    if c.phasicjExec.None? then [] else [AgentOpt(PHASICJ_EXEC, c.phasicjExec)]
  }

  lemma {:induction false} FlagIsWritable(name: string, b: bool)
    requires SnakeCase(name)
    ensures OptionPrinter.Writable(FlagOption(name, b))
  {
    assert |"true"| == 4 && |"false"| == 5;
  }

  predicate SnakeCase(name: string) { name != "" && forall i :: 0 <= i < |name| ==> OptionGrammar.IsNameChar(name[i]) }

  lemma {:induction false} NamesAreSnakeCase()
    ensures SnakeCase(VERBOSE) && SnakeCase(DUMP_BEFORE) && SnakeCase(DUMP_AFTER) && SnakeCase(PHASICJ_EXEC)
  {
  }

  lemma {:induction false} FlagsAreWritable(a: string, b: string, d: string, x: bool, y: bool, z: bool)
    requires SnakeCase(a) && SnakeCase(b) && SnakeCase(d)
    ensures OptionPrinter.AllWritable([FlagOption(a, x), FlagOption(b, y), FlagOption(d, z)])
  {
    FlagIsWritable(a, x);
    FlagIsWritable(b, y);
    FlagIsWritable(d, z);
  }

  /** Options that set everything in `c` can be written. */
  lemma {:induction false} OptionsForAreWritable(c: Conf)
    requires Storable(c)
    ensures OptionPrinter.AllWritable(FlagOptions(c) + ExecOptions(c))
  {
    NamesAreSnakeCase();
    FlagsAreWritable(VERBOSE, DUMP_BEFORE, DUMP_AFTER, c.verbose, c.dumpBefore, c.dumpAfter);
    BothWritable(FlagOptions(c), ExecOptions(c));
  }

  lemma {:induction false} BothWritable(a: seq<AgentOpt>, b: seq<AgentOpt>)
    requires OptionPrinter.AllWritable(a) && OptionPrinter.AllWritable(b)
    ensures OptionPrinter.AllWritable(a + b)
  {
  }

  lemma {:induction false} ApplyFlags(c: Conf)
    ensures ApplyOptions(DEFAULTS, FlagOptions(c)) == Done(c.(phasicjExec := None))
  {
    var a, b, d := FlagOption(VERBOSE, c.verbose), FlagOption(DUMP_BEFORE, c.dumpBefore),
        FlagOption(DUMP_AFTER, c.dumpAfter);
    assert |VERBOSE| == 7 && |PHASICJ_EXEC| == 12 && |DUMP_BEFORE| == 31 && |DUMP_AFTER| == 30;
    assert [a, b, d][1..] == [b, d] && [b, d][1..] == [d];
    OneOption(c.(phasicjExec := None, dumpAfter := false), d);
  }

  lemma {:induction false} ApplyOptionsFor(c: Conf)
    requires Storable(c)
    ensures ApplyOptions(DEFAULTS, FlagOptions(c) + ExecOptions(c)) == Done(c)
  {
    ApplyFlags(c);
    ApplyConcat(DEFAULTS, FlagOptions(c), ExecOptions(c));
    if c.phasicjExec.Some? {
      OneOption(c.(phasicjExec := None), AgentOpt(PHASICJ_EXEC, c.phasicjExec));
      assert |VERBOSE| == 7 && |PHASICJ_EXEC| == 12;
    }
  }

  lemma {:induction false} SameOptions(c: Conf, os: seq<AgentOpt>, s: string)
    requires GrammarOptions(s) == Some(os)
    ensures ApplyString(c, s) == ApplyOptions(c, os)
  {
  }

  /** A string that gives exactly the configuration `c`. */
  lemma {:induction false} StringFor(c: Conf) returns (s: string)
    requires Storable(c)
    ensures ApplyString(DEFAULTS, s) == Done(c)
  {
    OptionsForAreWritable(c);
    ApplyOptionsFor(c);
    s := WriteNonEmpty(FlagOptions(c) + ExecOptions(c));
    SameOptions(DEFAULTS, FlagOptions(c) + ExecOptions(c), s);
  }

  lemma {:induction false} WriteNonEmpty(os: seq<AgentOpt>) returns (s: string)
    requires os != [] && OptionPrinter.AllWritable(os)
    ensures GrammarOptions(s) == Some(os)
  {
    var sts := seq(|os|, _ => OptionPrinter.Style(0, 0, 0, false, 0, 0));
    s := OptionPrinter.WriteList(os, sts);
    OptionPrinter.AcceptedIffWritten(s, os);
  }

  /** The configurations that option strings can make out of the defaults are exactly the storable ones. */
  lemma {:induction false} ReachableIffStorable(c: Conf)
    ensures Storable(c) <==> exists ss: seq<string> :: ApplyStrings(DEFAULTS, ss) == Done(c)
  {
    forall ss: seq<string> | ApplyStrings(DEFAULTS, ss) == Done(c) ensures Storable(c) {
      StringsKeepStorable(DEFAULTS, ss);
    }
    if Storable(c) {
      var s := StringFor(c);
      assert [s][1..] == [];
      assert ApplyStrings(DEFAULTS, [s]) == Done(c);
    }
  }
}

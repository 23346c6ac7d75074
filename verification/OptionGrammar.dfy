/**
  The agent option grammar `PjAgentConfLang.pest`, rule by rule, and what each rule does with its input.
 */
module OptionGrammar {
  import opened Wrappers
  import opened Pest

  datatype AgentOpt = AgentOpt(name: string, value: Option<string>)

  // ---------------------------------------------------------------- the grammar

  const LOWER_LATIN_ALPHA := CharRange('a', 'z')
  const NAME_CHAR := Alt(LOWER_LATIN_ALPHA, Str("_"))
  const SNAKE_CASE_NAME := Plus(NAME_CHAR)
  const CONF_OPTION_NAME := Rule(ConfOptionName, Atomic, SNAKE_CASE_NAME)

  const ASCII_ALPHANUMERIC := Alt(CharRange('a', 'z'), Alt(CharRange('A', 'Z'), CharRange('0', '9')))
  const ARG_CHAR :=
    Alt(ASCII_ALPHANUMERIC, Alt(Str("."), Alt(Str(" "), Alt(Str("/"), Alt(Str("-"), Str("_"))))))
  const CONF_OPTION_ARG := Rule(ConfOptionArg, Atomic, Star(ARG_CHAR))
  const CONF_OPTION_QUOTED_ARG := Seq(Str("\""), Seq(CONF_OPTION_ARG, Str("\"")))

  const OPTION_VALUE := Alt(CONF_OPTION_QUOTED_ARG, CONF_OPTION_ARG)
  const OPTION_ASSIGNMENT := Seq(Str("="), OPTION_VALUE)
  const AGENT_OPTION := Rule(AgentOption, Normal, Seq(CONF_OPTION_NAME, Opt(OPTION_ASSIGNMENT)))

  const SEPARATED_OPTION := Seq(Str(","), AGENT_OPTION)
  const OPTIONS := Seq(AGENT_OPTION, Star(SEPARATED_OPTION))
  const AGENT_OPTIONS_LIST := Rule(AgentOptionsList, Normal, Seq(SOI, Seq(Opt(OPTIONS), EOI)))

  function ParseOptionsList(s: string): Parse {
    Match(AGENT_OPTIONS_LIST, false, |s|, s)
  }

  /** The option a pair of the parse tree stands for, as `apply_agent_option_pair` reads it. */
  function PairOption(p: Pair): Option<AgentOpt> {
    if |p.inner| == 1 then Some(AgentOpt(p.inner[0].text, None))
    else if |p.inner| == 2 then Some(AgentOpt(p.inner[0].text, Some(p.inner[1].text)))
    else None
  }

  /** The options of a list, in order; the end of input contributes none. */
  function PairsOptions(ps: seq<Pair>): Option<seq<AgentOpt>> {
    if ps == [] then Some([])
    else
      var rest := PairsOptions(ps[1..]);
      if ps[0].rule == Eoi then rest
      else
        var o := PairOption(ps[0]);
        if ps[0].rule != AgentOption || o.None? || rest.None? then None else Some([o.value] + rest.value)
  }

  /** What the parser hands to the evaluator: the options of the one pair that spans the input. */
  function GrammarOptions(s: string): Option<seq<AgentOpt>> {
    var r := ParseOptionsList(s);
    if r.Fail? || |r.pairs| != 1 then None else PairsOptions(r.pairs[0].inner)
  }

  // ---------------------------------------------------------------- characters

  predicate IsNameChar(c: char) { 'a' <= c <= 'z' || c == '_' }

  predicate IsArgChar(c: char) {
    'a' <= c <= 'z' || 'A' <= c <= 'Z' || '0' <= c <= '9' || c == '.' || c == ' ' || c == '/' || c == '-' || c == '_'
  }

  /** The two alphabets by their ASCII codes: letters, underscore; and letters, digits, space, `-`, `.`, `/`, `_`. */
  lemma {:induction false} Alphabets(c: char)
    ensures IsNameChar(c) <==> 97 <= c as int <= 122 || c as int == 95
    ensures IsArgChar(c) <==>
              || 97 <= c as int <= 122 || 65 <= c as int <= 90 || 48 <= c as int <= 57
              || c as int in {32, 45, 46, 47, 95}
  {}

  function NameLength(s: string): (n: nat)
    ensures n <= |s|
  {
    RunLength(IsNameChar, s)
  }

  function ArgLength(s: string): (n: nat)
    ensures n <= |s|
  {
    RunLength(IsArgChar, s)
  }

  // ---------------------------------------------------------------- characters, names and arguments

  lemma {:induction false} NameCharRecognized()
    ensures Recognizes(NAME_CHAR, IsNameChar)
  {
    RecognizesStr('_');
    var p, q := (c: char) => 'a' <= c <= 'z', (c: char) => c == '_';
    assert Recognizes(LOWER_LATIN_ALPHA, p);
    RecognizesAlt(LOWER_LATIN_ALPHA, p, Str("_"), q);
    RecognizesSame(NAME_CHAR, c => p(c) || q(c), IsNameChar);
  }

  lemma {:induction false} AlnumRecognized()
    ensures Recognizes(ASCII_ALPHANUMERIC, (c: char) => 'a' <= c <= 'z' || 'A' <= c <= 'Z' || '0' <= c <= '9')
  {
    var p, q, r := (c: char) => 'a' <= c <= 'z', (c: char) => 'A' <= c <= 'Z', (c: char) => '0' <= c <= '9';
    assert Recognizes(CharRange('a', 'z'), p) && Recognizes(CharRange('A', 'Z'), q)
        && Recognizes(CharRange('0', '9'), r);
    RecognizesAlt(CharRange('A', 'Z'), q, CharRange('0', '9'), r);
    var qr := c => q(c) || r(c);
    RecognizesAlt(CharRange('a', 'z'), p, Alt(CharRange('A', 'Z'), CharRange('0', '9')), qr);
    RecognizesSame(ASCII_ALPHANUMERIC, c => p(c) || qr(c), (c: char) => 'a' <= c <= 'z' || 'A' <= c <= 'Z'
        || '0' <= c <= '9');
  }

  lemma {:induction false} ArgCharRecognized()
    ensures Recognizes(ARG_CHAR, IsArgChar)
  {
    AlnumRecognized();
    RecognizesStr('.'); RecognizesStr(' '); RecognizesStr('/'); RecognizesStr('-'); RecognizesStr('_');
    var e1 := Alt(Str("-"), Str("_"));
    RecognizesAlt(Str("-"), c => c == '-', Str("_"), c => c == '_');
    var p1 := (c: char) => c in {'-', '_'};
    RecognizesSame(e1, c => (x => x == '-')(c) || (x => x == '_')(c), p1);
    var e2 := Alt(Str("/"), e1);
    RecognizesAlt(Str("/"), c => c == '/', e1, p1);
    var p2 := (c: char) => c in {'/', '-', '_'};
    RecognizesSame(e2, c => (x => x == '/')(c) || p1(c), p2);
    var e3 := Alt(Str(" "), e2);
    RecognizesAlt(Str(" "), c => c == ' ', e2, p2);
    var p3 := (c: char) => c in {' ', '/', '-', '_'};
    RecognizesSame(e3, c => (x => x == ' ')(c) || p2(c), p3);
    var e4 := Alt(Str("."), e3);
    RecognizesAlt(Str("."), c => c == '.', e3, p3);
    var p4 := (c: char) => c in {'.', ' ', '/', '-', '_'};
    RecognizesSame(e4, c => (x => x == '.')(c) || p3(c), p4);
    var p5 := (c: char) => 'a' <= c <= 'z' || 'A' <= c <= 'Z' || '0' <= c <= '9';
    RecognizesAlt(ASCII_ALPHANUMERIC, p5, e4, p4);
    RecognizesSame(ARG_CHAR, c => p5(c) || p4(c), IsArgChar);
  }

  function NameParse(s: string): Parse {
    var n := NameLength(s);
    if n == 0 then Fail else Ok(s[n..], [Pair(ConfOptionName, s[..n], [])])
  }

  lemma {:induction false} NameMeans()
    ensures Means(CONF_OPTION_NAME, NameParse)
  {
    NameCharRecognized();
    forall total, s ensures Match(CONF_OPTION_NAME, false, total, s) == NameParse(s) {
      PlusIsRun(NAME_CHAR, IsNameChar, total, s);
      assert Match(SNAKE_CASE_NAME, true, total, s) == if NameLength(s) == 0 then Fail else Ok(s[NameLength(s)..], []);
    }
  }

  function ArgParse(s: string): Parse {
    Ok(s[ArgLength(s)..], [Pair(ConfOptionArg, s[..ArgLength(s)], [])])
  }

  lemma {:induction false} ArgMeans()
    ensures Means(CONF_OPTION_ARG, ArgParse)
  {
    ArgCharRecognized();
    forall total, s ensures Match(CONF_OPTION_ARG, false, total, s) == ArgParse(s) {
      StarIsRun(ARG_CHAR, IsArgChar, total, s);
      assert Match(Star(ARG_CHAR), true, total, s) == Ok(s[ArgLength(s)..], []);
    }
  }

  function CharParse(c: char): string -> Parse {
    s => OneChar(x => x == c, s)
  }

  lemma {:induction false} CharMeans(c: char)
    ensures Means(Str([c]), CharParse(c))
  {
    RecognizesStr(c);
    forall total, s ensures Match(Str([c]), false, total, s) == CharParse(c)(s) {
      assert Match(Str([c]), false, total, s) == OneChar(x => x == c, s);
    }
  }

  // ---------------------------------------------------------------- what the option rule matches

  function QuotedParse(v: string): Parse {
    if v == "" || v[0] != '"' then Fail
    else
      var w := TrimLeft(v[1..]);
      var k := ArgLength(w);
      if k < |w| && w[k] == '"' then Ok(w[k + 1..], [Pair(ConfOptionArg, w[..k], [])]) else Fail
  }

  lemma {:induction false} QuotedMeans()
    ensures Means(CONF_OPTION_QUOTED_ARG, QuotedParse)
  {
    CharMeans('"');
    ArgMeans();
    MeansSeq(CONF_OPTION_ARG, ArgParse, Str("\""), CharParse('"'));
    var g := s => ThenParse(ArgParse, CharParse('"'), s);
    MeansSeq(Str("\""), CharParse('"'), Seq(CONF_OPTION_ARG, Str("\"")), g);
    var h := s => ThenParse(CharParse('"'), g, s);
    forall v ensures h(v) == QuotedParse(v) {
      QuotedUnfold(v);
    }
    MeansSame(CONF_OPTION_QUOTED_ARG, h, QuotedParse);
  }

  lemma {:induction false} QuotedUnfold(v: string)
    ensures ThenParse(CharParse('"'), s => ThenParse(ArgParse, CharParse('"'), s), v) == QuotedParse(v)
  {
    if v != "" && v[0] == '"' {
      var w := TrimLeft(v[1..]);
      var k := ArgLength(w);
      RunLengthIs(IsArgChar, w);
      assert TrimLeft(w[k..]) == w[k..];
    }
  }

  /** The rest and the value that the choice between a quoted and a bare argument gives: without a closing quote, the
      bare alternative takes over and stops in front of the opening quote. */
  function TakeValue(v: string): (string, string) {
    var q := QuotedParse(v);
    if q.Ok? then (q.rest, q.pairs[0].text) else (v[ArgLength(v)..], v[..ArgLength(v)])
  }

  function AssignmentParse(r: string): Parse {
    if r == "" || r[0] != '=' then Fail
    else
      var (rest, value) := TakeValue(TrimLeft(r[1..]));
      Ok(rest, [Pair(ConfOptionArg, value, [])])
  }

  lemma {:induction false} AssignmentMeans()
    ensures Means(OPTION_ASSIGNMENT, AssignmentParse)
  {
    QuotedMeans();
    ArgMeans();
    MeansAlt(CONF_OPTION_QUOTED_ARG, QuotedParse, CONF_OPTION_ARG, ArgParse);
    var g := s => OrParse(QuotedParse, ArgParse, s);
    CharMeans('=');
    MeansSeq(Str("="), CharParse('='), OPTION_VALUE, g);
    var h := s => ThenParse(CharParse('='), g, s);
    forall r ensures h(r) == AssignmentParse(r) {
      AssignmentUnfold(r);
    }
    MeansSame(OPTION_ASSIGNMENT, h, AssignmentParse);
  }

  lemma {:induction false} AssignmentUnfold(r: string)
    ensures ThenParse(CharParse('='), s => OrParse(QuotedParse, ArgParse, s), r) == AssignmentParse(r)
  {}

  /** The rest and the parts that `agent_option` gives. */
  function OptionBodyParse(s: string): Parse {
    var n := NameLength(s);
    if n == 0 then Fail
    else
      var r := TrimLeft(s[n..]);
      var a := AssignmentParse(r);
      if a.Fail? then Ok(r, [Pair(ConfOptionName, s[..n], [])])
      else Ok(a.rest, [Pair(ConfOptionName, s[..n], []), a.pairs[0]])
  }

  function OptionParse(s: string): Parse {
    RuleParse(AgentOption, OptionBodyParse, s)
  }

  lemma {:induction false} OptionMeans()
    ensures Means(AGENT_OPTION, OptionParse)
  {
    NameMeans();
    AssignmentMeans();
    MeansOpt(OPTION_ASSIGNMENT, AssignmentParse);
    var g := s => OrParse(AssignmentParse, t => Ok(t, []), s);
    MeansSeq(CONF_OPTION_NAME, NameParse, Opt(OPTION_ASSIGNMENT), g);
    var h := s => ThenParse(NameParse, g, s);
    var body := Seq(CONF_OPTION_NAME, Opt(OPTION_ASSIGNMENT));
    forall s ensures h(s) == OptionBodyParse(s) {
      OptionUnfold(s);
    }
    MeansSame(body, h, OptionBodyParse);
    MeansRule(AgentOption, body, OptionBodyParse);
    MeansSame(AGENT_OPTION, s => RuleParse(AgentOption, OptionBodyParse, s), OptionParse);
  }

  lemma {:induction false} OptionUnfold(s: string)
    ensures ThenParse(NameParse, t => OrParse(AssignmentParse, u => Ok(u, []), t), s) == OptionBodyParse(s)
  {}

  function SeparatedParse(s: string): Parse {
    if s == "" || s[0] != ',' then Fail else OptionParse(TrimLeft(s[1..]))
  }

  function OptionsParse(s: string): Parse {
    ThenParse(OptionParse, t => StarParse(SeparatedParse, t), s)
  }

  lemma {:induction false} OptionsMeans()
    ensures Means(OPTIONS, OptionsParse)
  {
    OptionMeans();
    CharMeans(',');
    MeansSeq(Str(","), CharParse(','), AGENT_OPTION, OptionParse);
    var h := s => ThenParse(CharParse(','), OptionParse, s);
    forall s ensures h(s) == SeparatedParse(s) {
      SeparatedUnfold(s);
    }
    MeansSame(SEPARATED_OPTION, h, SeparatedParse);
    MeansStar(SEPARATED_OPTION, SeparatedParse);
    var g := s => StarParse(SeparatedParse, s);
    MeansSeq(AGENT_OPTION, OptionParse, Star(SEPARATED_OPTION), g);
    MeansSame(OPTIONS, s => ThenParse(OptionParse, g, s), OptionsParse);
  }

  lemma {:induction false} SeparatedUnfold(s: string)
    ensures ThenParse(CharParse(','), OptionParse, s) == SeparatedParse(s)
  {
    if s != "" && s[0] == ',' {
      var r := OptionParse(TrimLeft(s[1..]));
      assert r.Ok? ==> [] + r.pairs == r.pairs;
    }
  }

  /** The whole list: the start of input, then the options if there are any, then the end of input. */
  function ListBodyParse(s: string): Parse {
    var r := OrParse(OptionsParse, t => Ok(t, []), TrimLeft(s));
    if TrimLeft(r.rest) == "" then Ok("", r.pairs + [Pair(Eoi, "", [])]) else Fail
  }

  lemma {:induction false} ListMatched(s: string)
    ensures Match(Seq(SOI, Seq(Opt(OPTIONS), EOI)), false, |s|, s) == ListBodyParse(s)
  {
    OptionsMeans();
    MeansOpt(OPTIONS, OptionsParse);
    ListUnfold(Opt(OPTIONS), x => OrParse(OptionsParse, t => Ok(t, []), x), s);
  }

  lemma {:induction false} EndUnfold(e: Peg, f: string -> Parse, total: nat, t: string)
    requires Means(e, f) && f(t).Ok?
    ensures Match(Seq(e, EOI), false, total, t) ==
            if TrimLeft(f(t).rest) == "" then Ok("", f(t).pairs + [Pair(Eoi, "", [])]) else Fail
  {
    assert Match(e, false, total, t) == f(t);
    var u := TrimLeft(f(t).rest);
    assert Match(EOI, false, total, u) == if u == "" then Ok("", [Pair(Eoi, "", [])]) else Fail;
    SeqUnfold(e, EOI, total, t);
  }

  lemma {:induction false} ListUnfold(e: Peg, f: string -> Parse, s: string)
    requires Means(e, f) && f(TrimLeft(s)).Ok?
    ensures Match(Seq(SOI, Seq(e, EOI)), false, |s|, s) ==
            var r := f(TrimLeft(s));
            if TrimLeft(r.rest) == "" then Ok("", r.pairs + [Pair(Eoi, "", [])]) else Fail
  {
    EndUnfold(e, f, |s|, TrimLeft(s));
    StartUnfold(Seq(e, EOI), s);
  }

  lemma {:induction false} StartUnfold(e: Peg, s: string)
    ensures Match(Seq(SOI, e), false, |s|, s) == Match(e, false, |s|, TrimLeft(s))
  {
    var r := Match(e, false, |s|, TrimLeft(s));
    StartMatches(s);
    SeqUnfold(SOI, e, |s|, s);
    ThenNothing(r);
  }

  lemma {:induction false} StartMatches(s: string)
    ensures Match(SOI, false, |s|, s) == Ok(s, [])
  {}

  lemma {:induction false} ThenNothing(r: Parse)
    ensures Then([], r) == r
  {
    assert r.Ok? ==> [] + r.pairs == r.pairs;
  }
}

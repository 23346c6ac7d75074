/**
  A specification of agent option strings that knows nothing of grammars: a blank string has no options; any other is
  split on commas, each piece is read by itself, and one bad piece spoils the string. The grammar agrees with it on
  every string.
 */
module OptionSpec {
  import opened Wrappers
  import opened Pest
  import opened OptionGrammar

  /** The value after `=`, to the end of the piece. */
  function ReadValue(v: string): Option<string> {
    if v != "" && v[0] == '"' then
      var w := TrimLeft(v[1..]);
      var k := ArgLength(w);
      if k < |w| && w[k] == '"' && TrimLeft(w[k + 1..]) == "" then Some(w[..k]) else None
    else if ArgLength(v) == |v| then Some(v)
    else None
  }

  /** What follows the name, to the end of the piece. */
  function ReadRest(name: string, r: string): Option<AgentOpt> {
    if r == "" then Some(AgentOpt(name, None))
    else if r[0] != '=' then None
    else
      var v := ReadValue(TrimLeft(r[1..]));
      if v.None? then None else Some(AgentOpt(name, v))
  }

  /** Reads one piece between commas: spaces, a name, and perhaps a value. */
  function ReadPiece(p: string): Option<AgentOpt> {
    var q := TrimLeft(p);
    var n := NameLength(q);
    if n == 0 then None else ReadRest(q[..n], TrimLeft(q[n..]))
  }

  function CommaAt(s: string): (n: nat)
    ensures n <= |s|
  {
    RunLength(c => c != ',', s)
  }

  function Split(s: string): (r: seq<string>)
    ensures r != []
    decreases |s|
  {
    var n := CommaAt(s);
    if n == |s| then [s] else [s[..n]] + Split(s[n + 1..])
  }

  function ReadPieces(ps: seq<string>): Option<seq<AgentOpt>> {
    if ps == [] then Some([])
    else
      var o := ReadPiece(ps[0]);
      var rest := ReadPieces(ps[1..]);
      if o.None? || rest.None? then None else Some([o.value] + rest.value)
  }

  predicate Blank(s: string) { TrimLeft(s) == "" }

  /** Blank strings have no options; otherwise every piece between commas must be an option. */
  function SpecOptions(s: string): Option<seq<AgentOpt>> {
    if Blank(s) then Some([]) else ReadPieces(Split(s))
  }

  // ---------------------------------------------------------------- one piece inside a longer string

  /** What may follow a piece. */
  predicate Delimiter(t: string) { t == "" || t[0] == ',' }

  lemma {:induction false} TrimConcat(p: string, t: string)
    requires Delimiter(t)
    ensures TrimLeft(p + t) == TrimLeft(p) + t
  {
    if p == "" {
      assert p + t == t;
    } else {
      assert (p + t)[1..] == p[1..] + t;
      TrimConcat(p[1..], t);
    }
  }

  lemma {:induction false} RunConcat(pr: char -> bool, p: string, t: string)
    requires Delimiter(t) && !pr(',')
    ensures var n := RunLength(pr, p);
            RunLength(pr, p + t) == n && (p + t)[n..] == p[n..] + t && (p + t)[..n] == p[..n]
  {
    if p == "" {
      assert p + t == t;
    } else {
      assert (p + t)[1..] == p[1..] + t;
      RunConcat(pr, p[1..], t);
    }
  }

  /** `rest`, left over after an option was taken from a piece followed by `t`, lets the list go on at `t`. */
  predicate GoesOn(rest: string, t: string) { TrimLeft(rest) == t }

  /** `rest` is neither the end of the input nor a separator: the list rule cannot go on. */
  predicate Stuck(rest: string) { !Delimiter(TrimLeft(rest)) }

  /** A non-empty piece of text without commas is no delimiter. */
  lemma {:induction false} NoDelimiter(x: string, t: string)
    requires ',' !in x && x != "" && x[0] != ' '
    ensures Stuck(x + t)
  {
    assert x[0] in x;
    assert TrimLeft(x + t) == x + t;
  }

  lemma {:induction false} NoComma(s: string, x: string, i: nat)
    requires ',' !in s && i <= |s| && x == s[i..]
    ensures ',' !in x
  {
    assert forall c :: c in x ==> c in s;
  }

  lemma {:induction false} QuotedOfPiece(v: string, t: string)
    requires Delimiter(t) && ',' !in v && v != "" && v[0] == '"'
    ensures var w := TrimLeft(v[1..]); var k := ArgLength(w);
            if k < |w| && w[k] == '"' then QuotedParse(v + t) == Ok(w[k + 1..] + t, [Pair(ConfOptionArg, w[..k], [])])
            else QuotedParse(v + t).Fail?
  {
    assert (v + t)[1..] == v[1..] + t;
    TrimConcat(v[1..], t);
    var w := TrimLeft(v[1..]);
    RunConcat(IsArgChar, w, t);
    var k := ArgLength(w);
    if k < |w| {
      assert (w + t)[k] == w[k];
      assert (w + t)[k + 1..] == w[k + 1..] + t;
    } else {
      assert t != "" ==> (w + t)[k] == t[0];
    }
  }

  /** Reading a value inside a longer string. */
  predicate ValueAgrees(v: string, t: string) {
    var r := TakeValue(v + t);
    if ReadValue(v).Some? then r.1 == ReadValue(v).value && GoesOn(r.0, t) else Stuck(r.0)
  }

  lemma {:induction false} NoDelimiterAfterSpaces(x: string, t: string)
    requires Delimiter(t) && TrimLeft(x) != "" && TrimLeft(x)[0] != ','
    ensures Stuck(x + t)
  {
    TrimConcat(x, t);
  }

  lemma {:induction false} BareValueOfPiece(v: string, t: string)
    requires Delimiter(t) && ',' !in v && (v == "" || (v[0] != ' ' && v[0] != '"'))
    ensures ValueAgrees(v, t)
  {
    RunConcat(IsArgChar, v, t);
    RunLengthIs(IsArgChar, v);
    var k := ArgLength(v);
    assert QuotedParse(v + t).Fail? by { assert v == "" ==> v + t == t; }
    if k < |v| {
      NoComma(v, v[k..], k);
      NoDelimiter(v[k..], t);
    } else {
      assert v[k..] + t == t;
      assert v[..k] == v;
    }
  }

  /** After the closing quote there may only be spaces. */
  lemma {:induction false} AfterClosingQuote(rest: string, t: string)
    requires Delimiter(t) && ',' !in rest
    ensures if TrimLeft(rest) == "" then GoesOn(rest + t, t) else Stuck(rest + t)
  {
    TrimConcat(rest, t);
    TrimDropsSpaces(rest);
    if TrimLeft(rest) != "" {
      assert TrimLeft(rest)[0] in rest;
      NoDelimiterAfterSpaces(rest, t);
    } else {
      assert "" + t == t;
    }
  }

  /** A quoted value that is closed: what follows the closing quote decides. */
  lemma {:induction false} ClosedValueOfPiece(v: string, t: string)
    requires Delimiter(t) && ',' !in v && v != "" && v[0] == '"'
    requires var w := TrimLeft(v[1..]); ArgLength(w) < |w| && w[ArgLength(w)] == '"'
    ensures ValueAgrees(v, t)
  {
    QuotedOfPiece(v, t);
    var w := TrimLeft(v[1..]);
    TrimDropsSpaces(v[1..]);
    var rest := w[ArgLength(w) + 1..];
    assert forall c :: c in rest ==> c in w;
    assert forall c :: c in w ==> c in v[1..];
    AfterClosingQuote(rest, t);
  }

  /** A quoted value that is not closed: the bare alternative stops in front of the opening quote. */
  lemma {:induction false} OpenValueOfPiece(v: string, t: string)
    requires Delimiter(t) && ',' !in v && v != "" && v[0] == '"'
    requires var w := TrimLeft(v[1..]); !(ArgLength(w) < |w| && w[ArgLength(w)] == '"')
    ensures ValueAgrees(v, t)
  {
    QuotedOfPiece(v, t);
    assert ArgLength(v + t) == 0 && (v + t)[0..] == v + t;
    NoDelimiter(v, t);
  }

  lemma {:induction false} ValueOfPiece(v: string, t: string)
    requires Delimiter(t) && ',' !in v && (v == "" || v[0] != ' ')
    ensures ValueAgrees(v, t)
  {
    if v == "" || v[0] != '"' {
      BareValueOfPiece(v, t);
    } else {
      var w := TrimLeft(v[1..]);
      if ArgLength(w) < |w| && w[ArgLength(w)] == '"' { ClosedValueOfPiece(v, t); } else { OpenValueOfPiece(v, t); }
    }
  }

  /** What the grammar makes of a piece followed by `t`. */
  predicate OptionAgrees(r: Parse, o: Option<AgentOpt>, t: string) {
    if o.Some? then
      r.Ok? && |r.pairs| == 1 && r.pairs[0].rule == AgentOption && PairOption(r.pairs[0]) == o && GoesOn(r.rest, t)
    else r.Fail? || Stuck(r.rest)
  }

  predicate BodyAgrees(r: Parse, o: Option<AgentOpt>, t: string) {
    if o.Some? then r.Ok? && PairOption(Pair(AgentOption, "", r.pairs)) == o && GoesOn(r.rest, t)
    else r.Fail? || Stuck(r.rest)
  }

  lemma {:induction false} AssignmentOfPiece(r: string, t: string)
    requires Delimiter(t) && ',' !in r && (r == "" || r[0] != ' ')
    ensures var a := AssignmentParse(r + t);
            if r == "" || r[0] != '=' then a.Fail? && (r != "" ==> Stuck(r + t))
            else
              var v := ReadValue(TrimLeft(r[1..]));
              && a.Ok? && a.pairs == [Pair(ConfOptionArg, a.pairs[0].text, [])]
              && if v.Some? then a.pairs[0].text == v.value && GoesOn(a.rest, t) else Stuck(a.rest)
  {
    if r == "" {
      assert r + t == t;
    } else if r[0] == '=' {
      assert (r + t)[1..] == r[1..] + t;
      TrimConcat(r[1..], t);
      TrimDropsSpaces(r[1..]);
      NoComma(r, r[1..], 1);
      ValueOfPiece(TrimLeft(r[1..]), t);
      assert ValueAgrees(TrimLeft(r[1..]), t);
    } else {
      NoDelimiter(r, t);
    }
  }

  lemma {:induction false} RestOfPiece(name: string, r: string, t: string)
    requires Delimiter(t) && ',' !in r && (r == "" || r[0] != ' ')
    ensures var a := AssignmentParse(r + t);
            var named := Pair(ConfOptionName, name, []);
            BodyAgrees(if a.Fail? then Ok(r + t, [named]) else Ok(a.rest, [named, a.pairs[0]]), ReadRest(name, r), t)
  {
    AssignmentOfPiece(r, t);
    if r == "" { assert r + t == t; }
  }

  lemma {:induction false} BodyOfPiece(q: string, t: string)
    requires Delimiter(t) && ',' !in q && (q == "" || q[0] != ' ')
    ensures var n := NameLength(q);
            BodyAgrees(OptionBodyParse(q + t), if n == 0 then None else ReadRest(q[..n], TrimLeft(q[n..])), t)
  {
    RunConcat(IsNameChar, q, t);
    var n := NameLength(q);
    if n > 0 {
      TrimConcat(q[n..], t);
      var r := TrimLeft(q[n..]);
      TrimDropsSpaces(q[n..]);
      NoComma(q, q[n..], n);
      RestOfPiece(q[..n], r, t);
    }
  }

  lemma {:induction false} ConsumesNoMore(s: string)
    ensures OptionBodyParse(s).Ok? ==> |OptionBodyParse(s).rest| <= |s|
    ensures OptionParse(s).Ok? ==> |OptionParse(s).rest| < |s|
  {
    var n := NameLength(s);
    if n > 0 {
      var r := TrimLeft(s[n..]);
      if r != "" && r[0] == '=' { assert |TakeValue(TrimLeft(r[1..])).0| <= |r|; }
    }
  }

  /** Inside a longer string, the option rule reads a piece exactly as the specification does. */
  lemma {:induction false} OptionOfPiece(p: string, t: string)
    requires Delimiter(t) && ',' !in p
    ensures OptionAgrees(OptionParse(TrimLeft(p + t)), ReadPiece(p), t)
  {
    TrimConcat(p, t);
    TrimDropsSpaces(p);
    BodyOfPiece(TrimLeft(p), t);
    ConsumesNoMore(TrimLeft(p) + t);
  }

  // ---------------------------------------------------------------- the whole list

  /** The options of a list that begins with a separator, or of the empty list. */
  function TailOptions(t: string): Option<seq<AgentOpt>> {
    if t == "" then Some([]) else ReadPieces(Split(t[1..]))
  }

  function ConsOption(o: Option<AgentOpt>, rest: Option<seq<AgentOpt>>): Option<seq<AgentOpt>> {
    if o.None? || rest.None? then None else Some([o.value] + rest.value)
  }

  lemma {:induction false} ReadPiecesCons(p: string, ps: seq<string>)
    ensures ReadPieces([p] + ps) == ConsOption(ReadPiece(p), ReadPieces(ps))
  {
    assert ([p] + ps)[1..] == ps;
  }

  lemma {:induction false} CutAtComma(s: string)
    ensures var n := CommaAt(s);
            s == s[..n] + s[n..] && ',' !in s[..n] && Delimiter(s[n..])
  {
    RunLengthIs(c => c != ',', s);
  }

  /** The first piece of `s` and what follows it. */
  lemma {:induction false} SplitHead(s: string)
    ensures var n := CommaAt(s);
            && s == s[..n] + s[n..] && ',' !in s[..n] && Delimiter(s[n..])
            && ReadPieces(Split(s)) == ConsOption(ReadPiece(s[..n]), TailOptions(s[n..]))
  {
    var n := CommaAt(s);
    CutAtComma(s);
    if n < |s| {
      assert s[n..][1..] == s[n + 1..];
      ReadPiecesCons(s[..n], Split(s[n + 1..]));
    } else {
      assert s[..n] == s;
      ReadPiecesCons(s, []);
      assert [s] + [] == [s];
    }
  }

  predicate ListAgrees(r: Parse, expected: Option<seq<AgentOpt>>) {
    r.Ok? && if expected.Some? then Blank(r.rest) && PairsOptions(r.pairs) == expected else !Blank(r.rest)
  }

  lemma {:induction false} PairsCons(p: Pair, ps: seq<Pair>)
    requires p.rule == AgentOption
    ensures PairsOptions([p] + ps) == ConsOption(PairOption(p), PairsOptions(ps))
  {
    assert ([p] + ps)[1..] == ps;
  }

  lemma {:induction false} StuckMore(x: string)
    requires Stuck(x)
    ensures MoreParse(SeparatedParse, x) == Ok(x, [])
  {}

  /** What follows an option that was read, or could not be read, from the piece in front of `t`. */
  lemma {:induction false} AfterOption(r: Parse, o: Option<AgentOpt>, t: string)
    requires OptionAgrees(r, o, t) && Delimiter(t) && r.Ok?
    requires o.Some? ==> ListAgrees(MoreParse(SeparatedParse, r.rest), TailOptions(t))
    ensures ListAgrees(Then(r.pairs, MoreParse(SeparatedParse, r.rest)), ConsOption(o, TailOptions(t)))
  {
    if o.Some? {
      PairsCons(r.pairs[0], MoreParse(SeparatedParse, r.rest).pairs);
      assert r.pairs == [r.pairs[0]];
    } else {
      StuckMore(r.rest);
    }
  }

  /** The repetition reads all remaining pieces, or stops in front of one that is no option. */
  lemma {:induction false} MoreAgrees(x: string)
    requires Delimiter(TrimLeft(x))
    ensures ListAgrees(MoreParse(SeparatedParse, x), TailOptions(TrimLeft(x)))
    decreases |x|
  {
    var t := TrimLeft(x);
    if t == "" {
    } else {
      var s := t[1..];
      var n := CommaAt(s);
      SplitHead(s);
      OptionOfPiece(s[..n], s[n..]);
      var r := OptionParse(TrimLeft(s));
      assert SeparatedParse(t) == r;
      ConsumesNoMore(TrimLeft(s));
      if r.Ok? {
        if ReadPiece(s[..n]).Some? { MoreAgrees(r.rest); }
        AfterOption(r, ReadPiece(s[..n]), s[n..]);
      }
    }
  }

  lemma {:induction false} StarIsMore(x: string)
    requires TrimLeft(x) == x
    ensures StarParse(SeparatedParse, x) == MoreParse(SeparatedParse, x)
  {
    if x != "" { ConsumesNoMore(TrimLeft(x[1..])); }
  }

  lemma {:induction false} MoreTrims(x: string)
    ensures var a, b := MoreParse(SeparatedParse, x), MoreParse(SeparatedParse, TrimLeft(x));
            a.pairs == b.pairs && Blank(a.rest) == Blank(b.rest)
  {
    var t := TrimLeft(x);
    assert TrimLeft(t) == t;
    if t != "" { ConsumesNoMore(TrimLeft(t[1..])); }
  }

  lemma {:induction false} OptionsAgree(s: string)
    requires TrimLeft(s) == s && s != ""
    ensures ListAgrees(OrParse(OptionsParse, t => Ok(t, []), s), ReadPieces(Split(s)))
  {
    var n := CommaAt(s);
    SplitHead(s);
    OptionOfPiece(s[..n], s[n..]);
    var r := OptionParse(s);
    if r.Ok? {
      StarIsMore(TrimLeft(r.rest));
      MoreTrims(r.rest);
      if ReadPiece(s[..n]).Some? { MoreAgrees(r.rest); }
      AfterOption(r, ReadPiece(s[..n]), s[n..]);
      assert OptionsParse(s) == Then(r.pairs, MoreParse(SeparatedParse, TrimLeft(r.rest)));
    }
  }

  lemma {:induction false} PairsEnd(ps: seq<Pair>)
    ensures PairsOptions(ps + [Pair(Eoi, "", [])]) == PairsOptions(ps)
  {
    if ps == [] {
      assert ps + [Pair(Eoi, "", [])] == [Pair(Eoi, "", [])];
      assert [Pair(Eoi, "", [])][1..] == [];
    } else {
      assert (ps + [Pair(Eoi, "", [])])[1..] == ps[1..] + [Pair(Eoi, "", [])];
      PairsEnd(ps[1..]);
    }
  }

  lemma {:induction false} TrimmedPieces(s: string)
    ensures ReadPieces(Split(TrimLeft(s))) == ReadPieces(Split(s))
  {
    if s == "" {
    } else if s[0] == ' ' {
      var t := s[1..];
      TrimmedPieces(t);
      SplitHead(s);
      SplitHead(t);
      var n := CommaAt(t);
      assert CommaAt(s) == n + 1;
      assert s[..n + 1][1..] == t[..n] && s[n + 1..] == t[n..];
      assert ReadPiece(s[..n + 1]) == ReadPiece(t[..n]);
    }
  }

  /** The grammar and the specification agree on every string: the same options, and failure on the same strings. */
  lemma {:induction false} GrammarMeetsSpec(s: string)
    ensures GrammarOptions(s) == SpecOptions(s)
  {
    ListMatched(s);
    TrimmedPieces(s);
    var t := TrimLeft(s);
    var r := OrParse(OptionsParse, x => Ok(x, []), t);
    PairsEnd(r.pairs);
    if t == "" {
      assert OptionsParse(t).Fail?;
    } else {
      OptionsAgree(t);
    }
    ListRule(s);
  }

  lemma {:induction false} ListRule(s: string)
    ensures GrammarOptions(s) == if ListBodyParse(s).Fail? then None else PairsOptions(ListBodyParse(s).pairs)
  {
    hide ListBodyParse, PairsOptions;
    ListMatched(s);
  }
}

/**
  Parsing expression grammars with the meaning the `pest` library gives them: ordered choice, greedy repetition
  without backtracking, implicit whitespace between the parts of sequences and repetitions of rules that are not
  atomic, silent rules, and the pairs a parse produces.

  Input is always the part not yet consumed.
 */
module Pest {

  datatype RuleName = ConfOptionName | ConfOptionArg | AgentOption | AgentOptionsList | Eoi
  datatype Modifier = Normal | Atomic

  datatype Peg =
    | Str(s: string)
    | CharRange(lo: char, hi: char)
    | Seq(first: Peg, second: Peg)
    | Alt(left: Peg, right: Peg)
    | Opt(body: Peg)
    | Star(body: Peg)
    | Plus(body: Peg)
    | Rule(name: RuleName, modifier: Modifier, body: Peg)  // a silent rule is just its body
    | SOI
    | EOI

  datatype Pair = Pair(rule: RuleName, text: string, inner: seq<Pair>)
  datatype Parse = Fail | Ok(rest: string, pairs: seq<Pair>)

  /** Drops leading spaces, the only implicit whitespace of the grammars here. */
  function TrimLeft(s: string): (r: string)
    ensures |r| <= |s|
    ensures r == "" || r[0] != ' '
  {
    if s == "" || s[0] != ' ' then s else TrimLeft(s[1..])
  }

  lemma {:induction false} TrimDropsSpaces(s: string)
    ensures TrimLeft(s) == s[|s| - |TrimLeft(s)|..]
    ensures forall i :: 0 <= i < |s| - |TrimLeft(s)| ==> s[i] == ' '
    ensures forall c :: c in TrimLeft(s) ==> c in s
  {
    if s == "" {
    } else if s[0] == ' ' {
      TrimDropsSpaces(s[1..]);
      assert forall i :: 1 <= i < |s| - |TrimLeft(s)| ==> s[i] == s[1..][i - 1];
    }
  }

  function Skip(atomic: bool, s: string): (r: string)
    ensures |r| <= |s|
  {
    if atomic then s else TrimLeft(s)
  }

  /** `total` is the length of the whole input; it tells where the start of input is. */
  function Match(e: Peg, atomic: bool, total: nat, s: string): (r: Parse)
    ensures r.Ok? ==> |r.rest| <= |s|
    decreases |s|, e, 1
  {
    match e
    case Str(t) => if t <= s then Ok(s[|t|..], []) else Fail
    case CharRange(lo, hi) => if s != "" && lo <= s[0] <= hi then Ok(s[1..], []) else Fail
    case Seq(a, b) => MatchSeq(a, b, e, atomic, total, s)
    case Alt(a, b) =>
      var r := Match(a, atomic, total, s);
      if r.Ok? then r else Match(b, atomic, total, s)
    case Opt(a) =>
      var r := Match(a, atomic, total, s);
      if r.Ok? then r else Ok(s, [])
    case Star(a) =>
      var r := Match(a, atomic, total, s);
      if r.Fail? then Ok(s, []) else Then(r.pairs, MatchMore(a, e, atomic, total, r.rest))
    case Plus(a) =>
      var r := Match(a, atomic, total, s);
      if r.Fail? then Fail
      else
        var t := Skip(atomic, r.rest);
        var more := Match(a, atomic, total, t);
        if more.Fail? then Ok(t, r.pairs) else Then(r.pairs + more.pairs, MatchMore(a, e, atomic, total, more.rest))
    case Rule(name, modifier, body) =>
      var r := Match(body, atomic || modifier.Atomic?, total, s);
      if r.Fail? then Fail
      else if atomic then r
      else Ok(r.rest, [Pair(name, s[..|s| - |r.rest|], r.pairs)])
    case SOI => if |s| == total then Ok(s, []) else Fail
    case EOI => if s == "" then Ok(s, [Pair(Eoi, "", [])]) else Fail
  }

  function Then(pairs: seq<Pair>, r: Parse): Parse {
    if r.Fail? then Fail else Ok(r.rest, pairs + r.pairs)
  }

  function MatchSeq(a: Peg, b: Peg, e: Peg, atomic: bool, total: nat, s: string): (r: Parse)
    requires a < e && b < e
    ensures r.Ok? ==> |r.rest| <= |s|
    decreases |s|, e, 0
  {
    var r := Match(a, atomic, total, s);
    if r.Fail? then Fail else Then(r.pairs, Match(b, atomic, total, Skip(atomic, r.rest)))
  }

  /** The repetitions after the first; an iteration that fails gives back the whitespace in front of it. */
  function MatchMore(a: Peg, e: Peg, atomic: bool, total: nat, s: string): (r: Parse)
    requires a < e
    ensures r.Ok? && |r.rest| <= |s|
    decreases |s|, e, 0
  {
    var r := Match(a, atomic, total, Skip(atomic, s));
    if r.Fail? || |r.rest| == |s| then Ok(s, []) else Then(r.pairs, MatchMore(a, e, atomic, total, r.rest))
  }

  // ---------------------------------------------------------------- grammars as parsers

  /** Outside atomic rules and away from the start of input, `e` behaves like `f`. */
  ghost predicate Means(e: Peg, f: string -> Parse) {
    forall total, s :: Match(e, false, total, s) == f(s)
  }

  function ThenParse(f: string -> Parse, g: string -> Parse, s: string): Parse {
    var r := f(s);
    if r.Fail? then Fail else Then(r.pairs, g(TrimLeft(r.rest)))
  }

  function OrParse(f: string -> Parse, g: string -> Parse, s: string): Parse {
    if f(s).Ok? then f(s) else g(s)
  }

  function MoreParse(f: string -> Parse, s: string): (r: Parse)
    ensures r.Ok?
    decreases |s|
  {
    var r := f(TrimLeft(s));
    if r.Fail? || |r.rest| >= |s| then Ok(s, []) else Then(r.pairs, MoreParse(f, r.rest))
  }

  function StarParse(f: string -> Parse, s: string): Parse {
    var r := f(s);
    if r.Fail? then Ok(s, []) else Then(r.pairs, MoreParse(f, r.rest))
  }

  function RuleParse(name: RuleName, f: string -> Parse, s: string): Parse {
    var r := f(s);
    if r.Fail? then Fail
    else if |r.rest| > |s| then Fail
    else Ok(r.rest, [Pair(name, s[..|s| - |r.rest|], r.pairs)])
  }

  lemma {:induction false} SeqUnfold(a: Peg, b: Peg, total: nat, s: string)
    ensures var r := Match(a, false, total, s);
            Match(Seq(a, b), false, total, s) == if r.Fail? then Fail
                else Then(r.pairs, Match(b, false, total, TrimLeft(r.rest)))
  {
    assert Match(Seq(a, b), false, total, s) == MatchSeq(a, b, Seq(a, b), false, total, s);
  }

  lemma {:induction false} MeansSeq(a: Peg, f: string -> Parse, b: Peg, g: string -> Parse)
    requires Means(a, f) && Means(b, g)
    ensures Means(Seq(a, b), s => ThenParse(f, g, s))
  {
    forall total, s ensures Match(Seq(a, b), false, total, s) == ThenParse(f, g, s) {
      assert Match(a, false, total, s) == f(s);
      SeqUnfold(a, b, total, s);
      assert f(s).Ok? ==> Match(b, false, total, TrimLeft(f(s).rest)) == g(TrimLeft(f(s).rest));
    }
  }

  lemma {:induction false} MeansAlt(a: Peg, f: string -> Parse, b: Peg, g: string -> Parse)
    requires Means(a, f) && Means(b, g)
    ensures Means(Alt(a, b), s => OrParse(f, g, s))
  {
    forall total, s ensures Match(Alt(a, b), false, total, s) == OrParse(f, g, s) {
      assert Match(a, false, total, s) == f(s);
      assert Match(b, false, total, s) == g(s);
    }
  }

  lemma {:induction false} MeansOpt(a: Peg, f: string -> Parse)
    requires Means(a, f)
    ensures Means(Opt(a), s => OrParse(f, t => Ok(t, []), s))
  {
    forall total, s ensures Match(Opt(a), false, total, s) == OrParse(f, t => Ok(t, []), s) {
      assert Match(a, false, total, s) == f(s);
    }
  }

  lemma {:induction false} MoreMeans(a: Peg, e: Peg, f: string -> Parse, total: nat, s: string)
    requires Means(a, f) && a < e
    ensures MatchMore(a, e, false, total, s) == MoreParse(f, s)
    decreases |s|
  {
    var r := Match(a, false, total, TrimLeft(s));
    assert r == f(TrimLeft(s));
    if r.Ok? && |r.rest| < |s| { MoreMeans(a, e, f, total, r.rest); }
  }

  lemma {:induction false} MeansStar(a: Peg, f: string -> Parse)
    requires Means(a, f)
    ensures Means(Star(a), s => StarParse(f, s))
  {
    forall total, s ensures Match(Star(a), false, total, s) == StarParse(f, s) {
      assert Match(a, false, total, s) == f(s);
      if f(s).Ok? { MoreMeans(a, Star(a), f, total, f(s).rest); }
    }
  }

  lemma {:induction false} MeansRule(name: RuleName, a: Peg, f: string -> Parse)
    requires Means(a, f)
    ensures Means(Rule(name, Normal, a), s => RuleParse(name, f, s))
  {
    forall total, s ensures Match(Rule(name, Normal, a), false, total, s) == RuleParse(name, f, s) {
      assert Match(a, false, total, s) == f(s);
    }
  }

  lemma {:induction false} MeansSame(e: Peg, f: string -> Parse, g: string -> Parse)
    requires Means(e, f) && forall s :: f(s) == g(s)
    ensures Means(e, g)
  {
    forall total, s ensures Match(e, false, total, s) == g(s) {
      assert Match(e, false, total, s) == f(s);
    }
  }

  // ---------------------------------------------------------------- single characters and runs of them

  function OneChar(p: char -> bool, s: string): Parse {
    if s != "" && p(s[0]) then Ok(s[1..], []) else Fail
  }

  ghost predicate Recognizes(e: Peg, p: char -> bool) {
    forall atomic, total, s :: Match(e, atomic, total, s) == OneChar(p, s)
  }

  lemma {:induction false} RecognizesStr(c: char)
    ensures Recognizes(Str([c]), x => x == c)
  {
    forall atomic, total, s ensures Match(Str([c]), atomic, total, s) == OneChar(x => x == c, s) {
      assert [c] <= s <==> s != "" && s[0] == c;
    }
  }

  lemma {:induction false} RecognizesAlt(a: Peg, p: char -> bool, b: Peg, q: char -> bool)
    requires Recognizes(a, p) && Recognizes(b, q)
    ensures Recognizes(Alt(a, b), x => p(x) || q(x))
  {
    forall atomic, total, s ensures Match(Alt(a, b), atomic, total, s) == OneChar(x => p(x) || q(x), s) {
      assert Match(a, atomic, total, s) == OneChar(p, s);
      assert Match(b, atomic, total, s) == OneChar(q, s);
    }
  }

  lemma {:induction false} RecognizesSame(e: Peg, p: char -> bool, q: char -> bool)
    requires Recognizes(e, p) && forall c :: p(c) == q(c)
    ensures Recognizes(e, q)
  {
    forall atomic, total, s ensures Match(e, atomic, total, s) == OneChar(q, s) {
      assert Match(e, atomic, total, s) == OneChar(p, s);
    }
  }

  /** The length of the longest prefix of characters that satisfy `p`. */
  function RunLength(p: char -> bool, s: string): (n: nat)
    ensures n <= |s|
  {
    if s == "" || !p(s[0]) then 0 else 1 + RunLength(p, s[1..])
  }

  lemma {:induction false} RunLengthIs(p: char -> bool, s: string)
    ensures forall i :: 0 <= i < RunLength(p, s) ==> p(s[i])
    ensures RunLength(p, s) < |s| ==> !p(s[RunLength(p, s)])
  {
    if s == "" {
    } else if p(s[0]) {
      RunLengthIs(p, s[1..]);
      assert forall i :: 1 <= i < RunLength(p, s) ==> s[i] == s[1..][i - 1];
    }
  }

  /** The only run that ends where it must is the longest one. */
  lemma {:induction false} RunLengthUnique(p: char -> bool, s: string, n: nat)
    requires n <= |s| && (forall i :: 0 <= i < n ==> p(s[i])) && (n < |s| ==> !p(s[n]))
    ensures RunLength(p, s) == n
  {
    if n == 0 {
    } else {
      assert forall i :: 0 <= i < n - 1 ==> s[1..][i] == s[i + 1];
      RunLengthUnique(p, s[1..], n - 1);
    }
  }

  lemma {:induction false} MoreIsRun(e: Peg, outer: Peg, p: char -> bool, total: nat, s: string)
    requires Recognizes(e, p) && e < outer
    ensures MatchMore(e, outer, true, total, s) == Ok(s[RunLength(p, s)..], [])
  {
    assert Match(e, true, total, Skip(true, s)) == OneChar(p, s);
    if s == "" {
    } else if p(s[0]) {
      MoreIsRun(e, outer, p, total, s[1..]);
    }
  }

  /** In an atomic rule, `e*` takes the longest run. */
  lemma {:induction false} StarIsRun(e: Peg, p: char -> bool, total: nat, s: string)
    requires Recognizes(e, p)
    ensures Match(Star(e), true, total, s) == Ok(s[RunLength(p, s)..], [])
  {
    assert Match(e, true, total, s) == OneChar(p, s);
    if s != "" && p(s[0]) {
      MoreIsRun(e, Star(e), p, total, s[1..]);
    }
  }

  /** In an atomic rule, `e+` takes the longest non-empty run. */
  lemma {:induction false} PlusIsRun(e: Peg, p: char -> bool, total: nat, s: string)
    requires Recognizes(e, p)
    ensures Match(Plus(e), true, total, s) == if RunLength(p, s) == 0 then Fail else Ok(s[RunLength(p, s)..], [])
  {
    assert Match(e, true, total, s) == OneChar(p, s);
    if s != "" && p(s[0]) {
      var t := s[1..];
      assert Match(e, true, total, t) == OneChar(p, t);
      if t != "" && p(t[0]) {
        MoreIsRun(e, Plus(e), p, total, t[1..]);
        assert RunLength(p, s) == 2 + RunLength(p, t[1..]);
        assert t[1..][RunLength(p, t[1..])..] == s[RunLength(p, s)..];
      }
    }
  }
}

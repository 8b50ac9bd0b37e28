/**
 Printing expressions (src/handlebars_ast_printer.c) and parsing them back (src/handlebars.y), token by
 token; blanks are not tokens. Parentheses come from a counter the printer raises and lowers.
 */
module Printer {
  import opened Options
  import opened Ast
  import opened Segments
  import opened Lexer
  import opened PathText

  // ---- what is printed

  function PathTokens(p: Path): seq<Token> {
    Lex(p.original)
  }

  /** A key stands in front of an equals sign, where a constant is a name like any other. */
  function KeyTokens(key: string): seq<Token> {
    if NameRun(key) then [Id(key)] else Lex(key)
  }

  function LiteralToken(l: Literal): Token {
    match l
    case StrLit(v) => Str(v)
    case NumLit(v) => Num(v)
    case BoolLit(v) => Bool(v)
    case UndefLit(_) => Undefined
    case NullLit(_) => Null
  }

  function HeadTokens(h: Head): seq<Token> {
    match h
    case Name(p) => PathTokens(p)
    case Constant(l) => [LiteralToken(l)]
  }

  function ExprTokens(e: Expr): seq<Token>
    decreases e, 0
  {
    match e
    case PathExpr(p) => PathTokens(p)
    case LitExpr(l) => [LiteralToken(l)]
    case SubExpr(call) => [OpenSexpr] + CallTokens(call) + [CloseSexpr]
  }

  function ParamsTokens(params: seq<Expr>): seq<Token>
    decreases params, 0
  {
    if params == [] then [] else ExprTokens(params[0]) + ParamsTokens(params[1..])
  }

  function PairsTokens(pairs: seq<HashPair>): seq<Token>
    decreases pairs, 0
  {
    if pairs == [] then []
      else KeyTokens(pairs[0].key) + [Equals] + ExprTokens(pairs[0].value) + PairsTokens(pairs[1..])
  }

  function HashTokens(hash: Hash): seq<Token>
    decreases hash, 0
  {
    if hash.Hash? then PairsTokens(hash.pairs) else []
  }

  /** A call without parentheses around it. */
  function CallTokens(call: CallExpr): seq<Token>
    decreases call, 0
  {
    HeadTokens(call.head) + ParamsTokens(call.args.params) + HashTokens(call.args.hash)
  }

  // ---- the printer

  class AstPrinter {
    var output: seq<Token>
    var padding: nat

    constructor ()
      ensures output == [] && padding == 0
    {
      output, padding := [], 0;
    }

    /** Exactly a nesting depth above 0 puts parentheses around a call; the counter is restored. */
    method PrintCall(call: CallExpr)
      modifies this
      ensures padding == old(padding)
      ensures output == old(output) +
        if padding > 0 then [OpenSexpr] + CallTokens(call) + [CloseSexpr] else CallTokens(call)
      decreases call, 1
    {
      var depth := padding;
      padding := padding + 1;
      if depth > 0 {
        output := output + [OpenSexpr];
      }
      PrintInside(call);
      if depth > 0 {
        output := output + [CloseSexpr];
      }
      padding := padding - 1;
    }

    method PrintInside(call: CallExpr)
      requires padding > 0
      modifies this
      ensures padding == old(padding) && output == old(output) + CallTokens(call)
      decreases call, 0
    {
      hide HeadTokens, ParamsTokens, PairsTokens;
      PrintHead(call.head);
      PrintParams(call.args.params);
      if call.args.hash.Hash? {
        PrintHash(call.args.hash.pairs);
      }
      ghost var head, params, hash := HeadTokens(call.head), ParamsTokens(call.args.params), HashTokens(call.args.hash);
      Assoc(old(output), head + params, hash);
      Assoc(old(output), head, params);
    }

    method PrintHead(head: Head)
      modifies this`output
      ensures output == old(output) + HeadTokens(head)
    {
      match head {
        case Name(p) => output := output + PathTokens(p);
        case Constant(l) => output := output + [LiteralToken(l)];
      }
    }

    method PrintExpr(e: Expr)
      requires padding > 0
      modifies this
      ensures padding == old(padding) && output == old(output) + ExprTokens(e)
      decreases e, 0
    {
      match e {
        case PathExpr(p) => output := output + PathTokens(p);
        case LitExpr(l) => output := output + [LiteralToken(l)];
        case SubExpr(call) => PrintCall(call);
      }
    }

    method PrintParams(params: seq<Expr>)
      requires padding > 0
      modifies this
      ensures padding == old(padding) && output == old(output) + ParamsTokens(params)
      decreases params, 0
    {
      var n := 0;
      assert params[0..] == params;
      while n < |params|
        invariant n <= |params| && padding == old(padding)
        invariant output + ParamsTokens(params[n..]) == old(output) + ParamsTokens(params)
      {
        assert params[n..][0] == params[n] && params[n..][1..] == params[n + 1..];
        Assoc(output, ExprTokens(params[n]), ParamsTokens(params[n + 1..]));
        PrintExpr(params[n]);
        n := n + 1;
      }
      assert params[n..] == [];
      assert output + [] == output;
    }

    method PrintHash(pairs: seq<HashPair>)
      requires padding > 0
      modifies this
      ensures padding == old(padding) && output == old(output) + PairsTokens(pairs)
      decreases pairs, 0
    {
      var n := 0;
      assert pairs[0..] == pairs;
      while n < |pairs|
        invariant n <= |pairs| && padding == old(padding)
        invariant output + PairsTokens(pairs[n..]) == old(output) + PairsTokens(pairs)
      {
        assert pairs[n..][0] == pairs[n] && pairs[n..][1..] == pairs[n + 1..];
        ghost var rest := PairsTokens(pairs[n + 1..]);
        Assoc(output, (KeyTokens(pairs[n].key) + [Equals]) + ExprTokens(pairs[n].value), rest);
        Assoc(output, (KeyTokens(pairs[n].key) + [Equals]), ExprTokens(pairs[n].value));
        output := output + (KeyTokens(pairs[n].key) + [Equals]);
        PrintExpr(pairs[n].value);
        n := n + 1;
      }
      assert pairs[n..] == [];
      assert output + [] == output;
    }
  }

  lemma Assoc(a: seq<Token>, b: seq<Token>, c: seq<Token>)
    ensures a + b + c == a + (b + c)
  {
  }

  // ---- the grammar

  datatype Parsed<+T> = Failed | Parsed(tree: T, rest: seq<Token>)

  /** A path of its words, or the error for dots behind a name. */
  function MakePath(words: seq<Word>, data: bool, rest: seq<Token>): Parsed<Head> {
    match Build(SegsOf(words), data)
    case None => Failed
    case Some(p) => Parsed(Name(p), rest)
  }

  /** helper_name */
  function ParseHead(ts: seq<Token>): (r: Parsed<Head>)
    ensures r.Parsed? ==> |r.rest| < |ts|
  {
    if ts == [] then Failed
    else match ts[0]
      case DataSign =>
        if |ts| >= 2 && ts[1].Id? then
          var (ws, rest) := ParseWords(ts[2..]);
          MakePath([Word("", ts[1].id)] + ws, true, rest)
        else Failed
      case Id(id) =>
        var (ws, rest) := ParseWords(ts[1..]);
        MakePath([Word("", id)] + ws, false, rest)
      case Str(s) => Parsed(Constant(StrLit(s)), ts[1..])
      case Num(n) => Parsed(Constant(NumLit(n)), ts[1..])
      case Bool(b) => Parsed(Constant(BoolLit(b)), ts[1..])
      case Undefined => Parsed(Constant(UndefLit("undefined")), ts[1..])
      case Null => Parsed(Constant(NullLit("null")), ts[1..])
      case _ => Failed
  }

  function AsExpr(h: Head): Expr {
    match h
    case Name(p) => PathExpr(p)
    case Constant(l) => LitExpr(l)
  }

  /** param */
  function ParseParam(ts: seq<Token>): (r: Parsed<Expr>)
    ensures r.Parsed? ==> |r.rest| < |ts|
    decreases |ts|, 0
  {
    if ts != [] && ts[0] == OpenSexpr then
      var c := ParseCall(ts[1..]);
      if c.Parsed? && c.rest != [] && c.rest[0] == CloseSexpr then Parsed(SubExpr(c.tree), c.rest[1..]) else Failed
    else
      var h := ParseHead(ts);
      if h.Parsed? then Parsed(AsExpr(h.tree), h.rest) else Failed
  }

  /** An ID with an equals sign behind it begins a hash pair, not a parameter. */
  predicate AtPair(ts: seq<Token>) {
    |ts| >= 2 && ts[0].Id? && ts[1] == Equals
  }

  predicate AtParam(ts: seq<Token>) {
    ts != [] && !ts[0].CloseSexpr? && !ts[0].Sep? && !ts[0].Equals? && !AtPair(ts)
  }

  /** params, possibly none */
  function ParseParams(ts: seq<Token>): (r: Parsed<seq<Expr>>)
    ensures r.Parsed? ==> |r.rest| <= |ts|
    decreases |ts|, 1
  {
    if !AtParam(ts) then Parsed([], ts)
    else
      var e := ParseParam(ts);
      if e.Failed? then Failed
      else
        var es := ParseParams(e.rest);
        if es.Failed? then Failed else Parsed([e.tree] + es.tree, es.rest)
  }

  /** hash_pairs, possibly none */
  function ParsePairs(ts: seq<Token>): (r: Parsed<seq<HashPair>>)
    ensures r.Parsed? ==> |r.rest| <= |ts|
    decreases |ts|, 1
  {
    if !AtPair(ts) then Parsed([], ts)
    else
      var e := ParseParam(ts[2..]);
      if e.Failed? then Failed
      else
        var ps := ParsePairs(e.rest);
        if ps.Failed? then Failed else Parsed([HashPair(ts[0].id, e.tree)] + ps.tree, ps.rest)
  }

  /** intermediate3 */
  function ParseCall(ts: seq<Token>): (r: Parsed<CallExpr>)
    ensures r.Parsed? ==> |r.rest| < |ts|
    decreases |ts|, 2
  {
    var h := ParseHead(ts);
    if h.Failed? then Failed
    else
      var es := ParseParams(h.rest);
      if es.Failed? then Failed
      else
        var ps := ParsePairs(es.rest);
        if ps.Failed? then Failed
        else Parsed(CallExpr(h.tree, Args(es.tree, if ps.tree == [] then NoHash else Hash(ps.tree))), ps.rest)
  }

  // ---- trees the grammar can produce

  /** s is a text of the path, and none of its segments needs its brackets. */
  ghost predicate WrittenAs(s: string, p: Path) {
    ReadPath(s, p.data) == Some(p) && Printable(WordsIn(Lex(s)).value)
  }

  /** The parser made the path of some text, and what the printer keeps of that text says the same. */
  ghost predicate GoodPath(p: Path) {
    exists s :: WrittenAs(s, p)
  }

  /** A key that is one ID as it is printed. */
  predicate GoodKey(key: string) {
    || NameRun(key) || key == "." || key == ".."
    || (IsBracketed(key) && key[|key| - 2] != '\\' && forall k :: 0 < k < |key| - 1 ==> key[k] != ']')
  }

  predicate GoodLiteral(l: Literal) {
    (l.UndefLit? ==> l.val == "undefined") && (l.NullLit? ==> l.val == "null")
  }

  ghost predicate GoodHead(h: Head) {
    match h
    case Name(p) => GoodPath(p)
    case Constant(l) => GoodLiteral(l)
  }

  ghost predicate GoodExpr(e: Expr)
    decreases e, 0
  {
    match e
    case PathExpr(p) => GoodPath(p)
    case LitExpr(l) => GoodLiteral(l)
    case SubExpr(call) => GoodCall(call)
  }

  ghost predicate GoodParams(params: seq<Expr>)
    decreases params, 0
  {
    params == [] || (GoodExpr(params[0]) && GoodParams(params[1..]))
  }

  ghost predicate GoodPairs(pairs: seq<HashPair>)
    decreases pairs, 0
  {
    pairs == [] || (GoodKey(pairs[0].key) && GoodExpr(pairs[0].value) && GoodPairs(pairs[1..]))
  }

  /** A hash literal has at least one pair. */
  ghost predicate GoodCall(call: CallExpr)
    decreases call, 0
  {
    && GoodHead(call.head) && GoodParams(call.args.params)
    && (call.args.hash.Hash? ==> call.args.hash.pairs != [] && GoodPairs(call.args.hash.pairs))
  }

  // ---- the round trip

  /** What may stand behind a helper name. */
  predicate Ends(rest: seq<Token>) {
    rest == [] || (!rest[0].Sep? && !rest[0].Equals?)
  }

  /** What may stand behind a whole call. */
  predicate CallEnds(rest: seq<Token>) {
    rest == [] || rest[0] == CloseSexpr
  }

  lemma {:induction false} WordsRoundTrip(ws: seq<Word>, rest: seq<Token>)
    requires Ends(rest) && forall n :: 0 <= n < |ws| ==> ws[n].sep != ""
    ensures ParseWords(WordTokens(ws) + rest) == (ws, rest)
    decreases |ws|
  {
    if ws == [] {
      assert WordTokens(ws) + rest == rest;
    } else {
      WordsRoundTrip(ws[1..], rest);
      WordStep(ws, rest);
    }
  }

  lemma WordStep(ws: seq<Word>, rest: seq<Token>)
    requires ws != [] && ws[0].sep != "" && ParseWords(WordTokens(ws[1..]) + rest) == (ws[1..], rest)
    ensures ParseWords(WordTokens(ws) + rest) == (ws, rest)
  {
    var more := WordTokens(ws[1..]) + rest;
    var two := [Sep(ws[0].sep)] + [Id(ws[0].text)];
    assert WordTokens(ws) == two + WordTokens(ws[1..]);
    hide WordTokens;
    Assoc(two, WordTokens(ws[1..]), rest);
    assert (two + more)[2..] == more;
    assert [Word(ws[0].sep, ws[0].text)] + ws[1..] == ws;
  }

  /** Every path written without brackets is good, unless separate dots have come together. */
  lemma BareIsGood(s: string, data: bool)
    requires ReadPath(s, data).Some? && !DotsMeet(WordsIn(Lex(s)).value)
    requires forall w :: w in WordsIn(Lex(s)).value ==> !IsBracketed(w.text)
    ensures GoodPath(ReadPath(s, data).value)
  {
    hide *;
    var p := ReadPath(s, data).value;
    PathHasWords(s, data);
    WithoutBrackets(s, data);
    PathReadsBackExactly(s, data);
    PrintedSpells(s, data);
    WrittenIsGood(s, p);
  }

  lemma WrittenIsGood(s: string, p: Path)
    requires ReadPath(s, p.data) == Some(p) && WordsIn(Lex(s)).Some? && Printable(WordsIn(Lex(s)).value)
    ensures GoodPath(p)
  {
    hide ReadPath, WordsIn, Lex, Printable;
    assert WrittenAs(s, p);
  }

  /** The tokens of the printed path: those of its words without brackets. */
  lemma PrintedWords(p: Path) returns (q: seq<Word>)
    requires GoodPath(p)
    ensures q != [] && q[0].sep == "" && forall n :: 1 <= n < |q| ==> q[n].sep != ""
    ensures PathTokens(p) == (if p.data then [DataSign] else []) + WordTokens(q)
    ensures Build(SegsOf(q), p.data) == Some(p)
  {
    hide Lex, WordTokens, Build;
    var s :| WrittenAs(s, p);
    var ws := WordsIn(Lex(s)).value;
    WordsAreSpaced(s);
    PlainReadsBack(ws, p.data);
    PrintedSpells(s, p.data);
    q := Plain(ws);
    SepsStand(q);
    Signed(s, p);
    SignedText(p);
  }

  lemma SepsStand(q: seq<Word>)
    requires WellSpaced(q)
    ensures forall n :: 1 <= n < |q| ==> q[n].sep != ""
  {
    forall n | 1 <= n < |q| ensures q[n].sep != "" {
      assert Follows(q[1..][n - 1]);
    }
  }

  lemma Signed(s: string, p: Path)
    requires ReadPath(s, p.data) == Some(p)
    ensures p.data ==> p.original != "" && p.original[0] == '@'
  {
    hide Lex, WordsIn, Misplaced, Names, Parents, Texts;
  }

  lemma SignedText(p: Path)
    requires p.data ==> p.original != "" && p.original[0] == '@'
    ensures PathTokens(p) == (if p.data then [DataSign] else []) + Lex(PrintPath(p))
  {
    if p.data {
      assert Next(p.original) == (DataSign, 1);
    }
  }

  lemma PathRoundTrip(p: Path, rest: seq<Token>)
    requires Ends(rest) && GoodPath(p)
    ensures ParseHead(PathTokens(p) + rest) == Parsed(Name(p), rest)
    ensures AtParam(PathTokens(p) + rest)
    ensures PathTokens(p) != [] && PathTokens(p)[0] != OpenSexpr
  {
    hide WordTokens, ParseWords, Build, GoodPath, PathTokens;
    var ws := PrintedWords(p);
    var more := WordTokens(ws[1..]) + rest;
    WordsRoundTrip(ws[1..], rest);
    NoEquals(ws[1..], rest);
    FirstWord(ws);
    assert [Word("", ws[0].text)] + ws[1..] == ws;
    var first := [Id(ws[0].text)];
    if p.data {
      assert PathTokens(p) + rest == [DataSign] + first + more;
      assert ([DataSign] + first + more)[2..] == more;
    } else {
      assert PathTokens(p) + rest == first + more;
      assert (first + more)[1..] == more;
    }
  }

  lemma FirstWord(ws: seq<Word>)
    requires ws != [] && ws[0].sep == ""
    ensures WordTokens(ws) == [Id(ws[0].text)] + WordTokens(ws[1..])
  {
    assert [] + [Id(ws[0].text)] == [Id(ws[0].text)];
  }

  lemma NoEquals(ws: seq<Word>, rest: seq<Token>)
    requires Ends(rest) && forall n :: 0 <= n < |ws| ==> ws[n].sep != ""
    ensures Ends(WordTokens(ws) + rest) || (WordTokens(ws) + rest)[0].Sep?
  {
    if ws == [] { assert WordTokens(ws) + rest == rest; }
  }

  // ---- keys

  lemma {:induction false} BracketCloses(s: string, n: nat)
    requires IsBracketed(s) && s[|s| - 2] != '\\' && 1 <= n < |s|
    requires forall k :: 0 < k < |s| - 1 ==> s[k] != ']'
    ensures BracketEnd(s, n, 0) == |s|
    decreases |s| - n
  {
    if n < |s| - 1 { BracketCloses(s, n + 1); }
  }

  lemma {:induction false} NothingToReduce(s: string)
    requires forall k :: 0 <= k < |s| - 1 ==> !(s[k] == '\\' && s[k + 1] == ']')
    ensures Reduce(s) == s
  {
    if |s| >= 2 {
      forall k | 0 <= k < |s[1..]| - 1 ensures !(s[1..][k] == '\\' && s[1..][k + 1] == ']') {
        assert s[1..][k] == s[k + 1] && s[1..][k + 1] == s[k + 2];
      }
      NothingToReduce(s[1..]);
    }
  }

  lemma KeyIsId(key: string)
    requires GoodKey(key)
    ensures KeyTokens(key) == [Id(key)]
  {
    hide ConstantAt, Reduce;
    if !NameRun(key) {
      assert key != "" && key[0] != ' ';
      if key != "." && key != ".." {
        BracketCloses(key, 1);
        NothingToReduce(key);
        assert key[..|key|] == key;
      }
      assert Next(key) == (Id(key), |key|);
      assert Lex(key[|key|..]) == [];
    }
  }

  lemma LiteralRoundTrip(l: Literal, rest: seq<Token>)
    requires GoodLiteral(l)
    ensures ParseHead([LiteralToken(l)] + rest) == Parsed(Constant(l), rest)
    ensures AtParam([LiteralToken(l)] + rest)
  {
    assert ([LiteralToken(l)] + rest)[1..] == rest;
  }

  lemma {:induction false} ExprRoundTrip(e: Expr, rest: seq<Token>)
    requires Ends(rest) && GoodExpr(e)
    ensures ParseParam(ExprTokens(e) + rest) == Parsed(e, rest)
    ensures AtParam(ExprTokens(e) + rest)
    decreases e, 0
  {
    match e
    case PathExpr(p) =>
      hide PathTokens, GoodPath;
      PathRoundTrip(p, rest);
    case LitExpr(l) => LiteralRoundTrip(l, rest);
    case SubExpr(call) =>
      CallRoundTrip(call, [CloseSexpr] + rest);
      SubExprFromCall(call, rest);
  }

  lemma SubExprFromCall(call: CallExpr, rest: seq<Token>)
    requires ParseCall(CallTokens(call) + ([CloseSexpr] + rest)) == Parsed(call, [CloseSexpr] + rest)
    ensures var ts := ExprTokens(SubExpr(call)) + rest;
      AtParam(ts) && ParseParam(ts) == Parsed(SubExpr(call), rest)
  {
    hide ParseCall, CallTokens;
    var inner, end := CallTokens(call), [CloseSexpr] + rest;
    Assoc([OpenSexpr] + inner, [CloseSexpr], rest);
    Assoc([OpenSexpr], inner, end);
    var ts := [OpenSexpr] + (inner + end);
    assert ExprTokens(SubExpr(call)) + rest == ts;
    assert ts[1..] == inner + end;
    assert end[1..] == rest;
  }

  lemma {:induction false} ParamsRoundTrip(params: seq<Expr>, rest: seq<Token>)
    requires GoodParams(params) && (CallEnds(rest) || AtPair(rest))
    ensures ParseParams(ParamsTokens(params) + rest) == Parsed(params, rest)
    ensures Ends(ParamsTokens(params) + rest)
    decreases params, 0
  {
    var ts := ParamsTokens(params) + rest;
    if params == [] {
      assert ts == rest;
    } else {
      var more := ParamsTokens(params[1..]) + rest;
      ParamsRoundTrip(params[1..], rest);
      Assoc(ExprTokens(params[0]), ParamsTokens(params[1..]), rest);
      assert ts == ExprTokens(params[0]) + more;
      ExprRoundTrip(params[0], more);
      assert [params[0]] + params[1..] == params;
    }
  }

  lemma {:induction false} PairsRoundTrip(pairs: seq<HashPair>, rest: seq<Token>)
    requires GoodPairs(pairs) && CallEnds(rest)
    ensures ParsePairs(PairsTokens(pairs) + rest) == Parsed(pairs, rest)
    ensures if pairs == [] then CallEnds(PairsTokens(pairs) + rest) else AtPair(PairsTokens(pairs) + rest)
    decreases pairs, 0
  {
    var ts := PairsTokens(pairs) + rest;
    if pairs == [] {
      assert ts == rest;
    } else {
      var more := PairsTokens(pairs[1..]) + rest;
      PairsRoundTrip(pairs[1..], rest);
      KeyIsId(pairs[0].key);
      assert [Id(pairs[0].key)] + [Equals] == [Id(pairs[0].key), Equals];
      var key, value := [Id(pairs[0].key), Equals], ExprTokens(pairs[0].value);
      Assoc(key + value, PairsTokens(pairs[1..]), rest);
      Assoc(key, value, more);
      assert ts == key + (value + more);
      ExprRoundTrip(pairs[0].value, more);
      OnePair(pairs, value + more, more, rest);
    }
  }

  lemma OnePair(pairs: seq<HashPair>, value: seq<Token>, more: seq<Token>, rest: seq<Token>)
    requires pairs != [] && ParseParam(value) == Parsed(pairs[0].value, more)
    requires ParsePairs(more) == Parsed(pairs[1..], rest)
    ensures var ts := [Id(pairs[0].key), Equals] + value;
      AtPair(ts) && ParsePairs(ts) == Parsed(pairs, rest)
  {
    hide ParseParam;
    var ts := [Id(pairs[0].key), Equals] + value;
    assert ts[2..] == value;
    assert [HashPair(pairs[0].key, pairs[0].value)] + pairs[1..] == pairs;
  }

  /** Parsing what is printed for a call gives the call back. */
  lemma {:induction false} CallRoundTrip(call: CallExpr, rest: seq<Token>)
    requires GoodCall(call) && CallEnds(rest)
    ensures ParseCall(CallTokens(call) + rest) == Parsed(call, rest)
    decreases call, 0
  {
    hide HeadTokens, ParamsTokens, PairsTokens, ParseHead, ParseParams, ParsePairs, AtPair;
    var head, params, hash := HeadTokens(call.head), ParamsTokens(call.args.params), HashTokens(call.args.hash);
    HashRoundTrip(call.args.hash, rest);
    ParamsRoundTrip(call.args.params, hash + rest);
    HeadRoundTrip(call.head, params + (hash + rest));
    assert CallTokens(call) + rest == head + (params + (hash + rest)) by {
      Assoc(head + params, hash, rest);
      Assoc(head, params, hash + rest);
    }
  }

  lemma {:induction false} HashRoundTrip(hash: Hash, rest: seq<Token>)
    requires (hash.Hash? ==> hash.pairs != [] && GoodPairs(hash.pairs)) && CallEnds(rest)
    ensures ParsePairs(HashTokens(hash) + rest) == Parsed(if hash.Hash? then hash.pairs else [], rest)
    ensures CallEnds(HashTokens(hash) + rest) || AtPair(HashTokens(hash) + rest)
    decreases hash, 0
  {
    if hash.Hash? {
      PairsRoundTrip(hash.pairs, rest);
    } else {
      assert HashTokens(hash) + rest == rest;
    }
  }

  lemma HeadRoundTrip(h: Head, rest: seq<Token>)
    requires GoodHead(h) && Ends(rest)
    ensures ParseHead(HeadTokens(h) + rest) == Parsed(h, rest)
  {
    match h
    case Name(p) => PathRoundTrip(p, rest);
    case Constant(l) => LiteralRoundTrip(l, rest);
  }

  // ---- parentheses

  function SubExprs(e: Expr): nat
    decreases e, 0
  {
    if e.SubExpr? then 1 + CallSubExprs(e.call) else 0
  }

  function ParamsSubExprs(params: seq<Expr>): nat
    decreases params, 0
  {
    if params == [] then 0 else SubExprs(params[0]) + ParamsSubExprs(params[1..])
  }

  function PairsSubExprs(pairs: seq<HashPair>): nat
    decreases pairs, 0
  {
    if pairs == [] then 0 else SubExprs(pairs[0].value) + PairsSubExprs(pairs[1..])
  }

  /** How many subexpressions a call contains, at any depth. */
  function CallSubExprs(call: CallExpr): nat
    decreases call, 0
  {
    ParamsSubExprs(call.args.params) + if call.args.hash.Hash? then PairsSubExprs(call.args.hash.pairs) else 0
  }

  /** As many opening as closing parentheses, and how many that is. */
  predicate Balanced(ts: seq<Token>, n: nat) {
    multiset(ts)[OpenSexpr] == n && multiset(ts)[CloseSexpr] == n
  }

  lemma BalancedBoth(a: seq<Token>, m: nat, b: seq<Token>, n: nat)
    requires Balanced(a, m) && Balanced(b, n)
    ensures Balanced(a + b, m + n)
  {
  }

  lemma PathHasNoParens(p: Path)
    requires GoodPath(p)
    ensures Balanced(PathTokens(p), 0)
  {
    hide PathTokens, GoodPath;
    var ws := PrintedWords(p);
    WordsHaveNoParens(ws);
  }

  lemma {:induction false} WordsHaveNoParens(ws: seq<Word>)
    ensures Balanced(WordTokens(ws), 0)
  {
    if ws != [] { WordsHaveNoParens(ws[1..]); }
  }

  lemma {:induction false} ExprParens(e: Expr)
    requires GoodExpr(e)
    ensures Balanced(ExprTokens(e), SubExprs(e))
    decreases e, 0
  {
    hide PathTokens, GoodPath, CallTokens;
    match e
    case PathExpr(p) => PathHasNoParens(p);
    case LitExpr(l) =>
    case SubExpr(call) => CallParens(call);
  }

  lemma {:induction false} ParamsParens(params: seq<Expr>)
    requires GoodParams(params)
    ensures Balanced(ParamsTokens(params), ParamsSubExprs(params))
    decreases params, 0
  {
    if params != [] {
      hide Balanced, GoodExpr, ExprTokens;
      ExprParens(params[0]);
      ParamsParens(params[1..]);
      BalancedBoth(ExprTokens(params[0]), SubExprs(params[0]), ParamsTokens(params[1..]), ParamsSubExprs(params[1..]));
    }
  }

  lemma {:induction false} PairsParens(pairs: seq<HashPair>)
    requires GoodPairs(pairs)
    ensures Balanced(PairsTokens(pairs), PairsSubExprs(pairs))
    decreases pairs, 0
  {
    if pairs != [] {
      hide Balanced, GoodExpr, ExprTokens, KeyTokens, GoodKey, SubExprs;
      var key, value := KeyTokens(pairs[0].key) + [Equals], ExprTokens(pairs[0].value);
      KeyHasNoParens(pairs[0].key);
      ExprParens(pairs[0].value);
      PairsParens(pairs[1..]);
      BalancedBoth(key, 0, value, SubExprs(pairs[0].value));
      BalancedBoth(key + value, SubExprs(pairs[0].value), PairsTokens(pairs[1..]), PairsSubExprs(pairs[1..]));
    }
  }

  lemma KeyHasNoParens(key: string)
    requires GoodKey(key)
    ensures Balanced(KeyTokens(key) + [Equals], 0)
  {
    hide KeyTokens, GoodKey;
    KeyIsId(key);
    assert [Id(key)] + [Equals] == [Id(key), Equals];
  }

  /** A call at depth 0 is printed with one pair of parentheses for every subexpression in it. */
  lemma {:induction false} CallParens(call: CallExpr)
    requires GoodCall(call)
    ensures Balanced(CallTokens(call), CallSubExprs(call))
    decreases call, 0
  {
    hide Balanced, PathTokens, GoodPath, ParamsTokens, GoodParams, GoodPairs, PairsTokens, ParamsSubExprs,
      PairsSubExprs;
    var head, params, hash := HeadTokens(call.head), ParamsTokens(call.args.params), HashTokens(call.args.hash);
    HeadHasNoParens(call.head);
    ParamsParens(call.args.params);
    var m, n := ParamsSubExprs(call.args.params), CallSubExprs(call) - ParamsSubExprs(call.args.params);
    if call.args.hash.Hash? { PairsParens(call.args.hash.pairs); } else { NoParens(); }
    BalancedBoth(head, 0, params, m);
    BalancedBoth(head + params, m, hash, n);
  }

  lemma NoParens()
    ensures Balanced([], 0)
  {
  }

  lemma HeadHasNoParens(h: Head)
    requires GoodHead(h)
    ensures Balanced(HeadTokens(h), 0)
  {
    hide PathTokens, GoodPath;
    if h.Name? { PathHasNoParens(h.path); }
  }
}

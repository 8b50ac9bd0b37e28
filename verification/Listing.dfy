/** What is emitted for whole templates, in full; what literals become; and what the result flags say of a template. */
module Listing {
  import opened Options
  import opened Ast
  import opened CodeGen
  import opened Vm
  import opened Eval
  import opened Scoping
  import opened Dispatch

  // ---- numerals

  function Digit(n: nat): char
    requires n < 10
  {
    '0' + n as char
  }

  /** The decimal numeral of a natural number, without leading zeros. */
  function Decimal(n: nat): string {
    if n < 10 then [Digit(n)] else Decimal(n / 10) + [Digit(n % 10)]
  }

  function Numeral(n: int): string {
    if n < 0 then "-" + Decimal(-n) else Decimal(n)
  }

  /** The values of a long. */
  predicate IsLong(n: int) {
    -0x8000_0000_0000_0000 <= n < 0x8000_0000_0000_0000
  }

  /** strtol, which the compiler asks; its answer 0 counts as none. */
  ghost predicate ReadsNumerals(cfg: Config) {
    && (forall n: int :: n != 0 && IsLong(n) ==> cfg.integral(Numeral(n)) == Some(n))
    && cfg.integral("0") == None
  }

  /** Every integer literal that a long can hold is that integer, zero included, and is pushed as a number. */
  lemma IntegersAreRead(cfg: Config, n: int)
    requires ReadsNumerals(cfg) && IsLong(n)
    ensures EvalLiteral(cfg, NumLit(Numeral(n))) == VInt(n)
    ensures LiteralOp(cfg, NumLit(Numeral(n))) == PushLiteral(Long(n))
  {
    if n != 0 {
      if n > 0 { NotZero(n); } else { assert Numeral(n)[0] == '-' && "0"[0] == '0'; }
    }
  }

  lemma {:induction false} NotZero(n: nat)
    requires n > 0
    ensures Decimal(n) != "" && Decimal(n) != "0" && Decimal(n)[0] != '0'
  {
    if n >= 10 { NotZero(n / 10); } else { assert Digit(n) != '0'; }
  }

  /** Any other numeral stays the text it is, and so does a quoted string, whatever it says. */
  lemma LiteralsMean(cfg: Config, s: string)
    ensures s != "0" && cfg.integral(s).None? && s != "undefined" && s != "null" ==>
      EvalLiteral(cfg, NumLit(s)) == VStr(s) && LiteralOp(cfg, NumLit(s)) == PushLiteral(Text(s))
    ensures EvalLiteral(cfg, StrLit(s)) == VStr(s) && LiteralOp(cfg, StrLit(s)) == PushString(s)
    ensures EvalLiteral(cfg, BoolLit("true")) == VBool(true) && EvalLiteral(cfg, BoolLit("false")) == VBool(false)
    ensures EvalLiteral(cfg, UndefLit(s)) == EvalLiteral(cfg, NullLit(s)) == VNull
  {
  }

  /** A partial is called by the text of its name; by a number if the name is an integer other than zero. */
  lemma PartialNames(cfg: Config, p: Path, v: string, n: int)
    requires ReadsNumerals(cfg) && IsLong(n)
    ensures PartialOperand(cfg, Static(Name(p))) == Text(p.original)
    ensures PartialOperand(cfg, Static(Constant(StrLit(v)))) == Text(v)
    ensures PartialOperand(cfg, Static(Constant(NumLit(Numeral(n))))) == if n != 0 then Long(n) else Text("0")
  {
    if n == 0 { assert Numeral(0) == "0"; }
  }

  // ---- result flags

  /** q holds of the program, or of one inside it that is compiled: a decorator block's inverse is not. */
  predicate Somewhere(q: Program -> bool, p: Program)
    decreases p, 0
  {
    q(p) || InBody(q, p.stmts)
  }

  predicate InBody(q: Program -> bool, stmts: seq<Stmt>)
    decreases stmts, 0
  {
    stmts != [] && (InStmt(q, stmts[0]) || InBody(q, stmts[1..]))
  }

  predicate InStmt(q: Program -> bool, s: Stmt)
    decreases s, 1
  {
    match s
    case Block(_, program, inverse, decorator, _) => InOption(q, program) || (!decorator && InOption(q, inverse))
    case Partial(_, _, program, _) => InOption(q, program)
    case _ => false
  }

  predicate InOption(q: Program -> bool, p: Option<Program>)
    decreases p, 1
  {
    p.Some? && Somewhere(q, p.value)
  }

  predicate HasPartial(p: Program) {
    exists n :: 0 <= n < |p.stmts| && p.stmts[n].Partial?
  }

  predicate IsDecorator(s: Stmt) {
    (s.Mustache? || s.Block?) && s.decorator
  }

  predicate HasDecorator(p: Program) {
    exists n :: 0 <= n < |p.stmts| && IsDecorator(p.stmts[n])
  }

  predicate IsSingle(p: Program) {
    |p.stmts| == 1
  }

  /** The marks of the opcodes of a statement are those of the statement. */
  lemma StmtMarks(cfg: Config, scope: Scope, s: Stmt, base: nat)
    ensures Any(StmtOps(cfg, scope, s, base), PartialAsked) <==> s.Partial?
    ensures Any(StmtOps(cfg, scope, s, base), DecoratorAsked) <==> IsDecorator(s)
  {
    StmtBears(cfg, scope, s, base, PartialAsked);
    StmtBears(cfg, scope, s, base, DecoratorAsked);
  }

  lemma StmtBears(cfg: Config, scope: Scope, s: Stmt, base: nat, k: Mark)
    requires !k.NameAsked?
    ensures Any(StmtOps(cfg, scope, s, base), k) <==> if k.PartialAsked? then s.Partial? else IsDecorator(s)
  {
    hide CallOps, BlockOps, PartialOps, DecoratorOps, Any;
    match s
    case Content(v) => ContentBears(v, k);
    case Comment => NothingBears(k);
    case Mustache(call, unescaped, decorator) =>
      if decorator {
        DecoratorBears(cfg, scope, call, HeadText(call.head), None, k);
      } else {
        var append := if !unescaped && !cfg.noEscape then AppendEscaped else Append;
        AnyInCall(cfg, scope, call, false, None, None, "", k);
        OneBears(append, k);
        AnyConcat(CallOps(cfg, scope, call, false, None, None, ""), [append], k);
      }
    case Block(call, _, _, decorator, _) =>
      if decorator {
        DecoratorBears(cfg, scope, call, HeadPath(call.head).original, ProgramGuid(s, base), k);
      } else {
        BlockBears(cfg, scope, s, base, k);
      }
    case RawBlock(_, _) => BlockBears(cfg, scope, AsBlock(s), base, k);
    case Partial(_, _, _, _) => PartialBears(cfg, scope, s, base, k);
  }

  lemma NothingBears(k: Mark)
    ensures !Any([], k)
  {
  }

  lemma OneBears(op: Op, k: Mark)
    ensures Any([op], k) <==> Bears(op, k)
  {
    assert [op][0] == op;
  }

  lemma ContentBears(v: string, k: Mark)
    requires !k.NameAsked?
    ensures !Any(ContentOps(v), k)
  {
  }

  lemma DecoratorBears(cfg: Config, scope: Scope, call: CallExpr, original: string, g: Option<nat>, k: Mark)
    requires !k.NameAsked?
    ensures Any(DecoratorOps(cfg, scope, call, original, g), k) <==> k.DecoratorAsked?
  {
    hide SetupOps, Any;
    var op := RegisterDecorator(|call.args.params|, original);
    NoneInSetup(cfg, scope, call.args, g, None, false, k);
    OneBears(op, k);
    AnyConcat(SetupOps(cfg, scope, call.args, g, None, false), [op], k);
  }

  lemma BlockBears(cfg: Config, scope: Scope, s: Stmt, base: nat, k: Mark)
    requires !k.NameAsked? && s.Block? && !s.decorator
    ensures !Any(BlockOps(cfg, scope, s, base), k)
  {
    hide CallOps, BlockTail, Any;
    var g, ig := ProgramGuid(s, base), InverseGuid(s, base);
    var call, tail := CallOps(cfg, scope, s.call, false, g, ig, BlockText(s)), BlockTail(cfg, scope, s, base);
    AnyInCall(cfg, scope, s.call, false, g, ig, BlockText(s), k);
    TailBears(cfg, scope, s, base, k);
    OneBears(Append, k);
    AnyConcat(call, tail, k);
    AnyConcat(call + tail, [Append], k);
  }

  lemma TailBears(cfg: Config, scope: Scope, s: Stmt, base: nat, k: Mark)
    requires !k.NameAsked? && s.Block? && !s.decorator
    ensures !Any(BlockTail(cfg, scope, s, base), k)
  {
    hide Classify;
  }

  lemma PartialBears(cfg: Config, scope: Scope, s: Stmt, base: nat, k: Mark)
    requires !k.NameAsked? && s.Partial?
    ensures Any(PartialOps(cfg, scope, s, base), k) <==> k.PartialAsked?
  {
    hide CallOps, SetupOps, PartialTail, PartialContextOps, PartialArgs, Any;
    var before, name := PartialContextOps(cfg, s.args.params), PartialNameOps(cfg, scope, s.name);
    var setup, tail := SetupOps(cfg, scope, PartialArgs(cfg, s.args), ProgramGuid(s, base), None, true),
      PartialTail(cfg, s);
    NothingBears(k);
    if s.name.Dynamic? { AnyInCall(cfg, scope, s.name.call, true, None, None, "", k); }
    NoneInSetup(cfg, scope, PartialArgs(cfg, s.args), ProgramGuid(s, base), None, true, k);
    EndsBear(cfg, s, k);
    AnyConcat(before, name, k);
    AnyConcat(before + name, setup, k);
    AnyConcat(before + name + setup, tail, k);
  }

  lemma EndsBear(cfg: Config, s: Stmt, k: Mark)
    requires !k.NameAsked? && s.Partial?
    ensures !Any(PartialContextOps(cfg, s.args.params), k)
    ensures Any(PartialTail(cfg, s), k) <==> k.PartialAsked?
  {
    var tail := PartialTail(cfg, s);
    assert tail[|tail| - 2].InvokePartial?;
  }

  lemma {:induction false} BodyBears(cfg: Config, scope: Scope, stmts: seq<Stmt>, base: nat)
    ensures Any(BodyOps(cfg, scope, stmts, base), PartialAsked) <==> exists n :: 0 <= n < |stmts| && stmts[n].Partial?
    ensures Any(BodyOps(cfg, scope, stmts, base), DecoratorAsked) <==>
      exists n :: 0 <= n < |stmts| && IsDecorator(stmts[n])
  {
    hide StmtOps, Any, IsDecorator;
    if stmts == [] {
      NothingBears(PartialAsked);
      NothingBears(DecoratorAsked);
    } else {
      var first, rest := StmtOps(cfg, scope, stmts[0], base),
        BodyOps(cfg, scope, stmts[1..], base + KidCount(stmts[0]));
      StmtMarks(cfg, scope, stmts[0], base);
      BodyBears(cfg, scope, stmts[1..], base + KidCount(stmts[0]));
      AnyConcat(first, rest, PartialAsked);
      AnyConcat(first, rest, DecoratorAsked);
      assert forall n :: 1 <= n < |stmts| ==> stmts[n] == stmts[1..][n - 1];
      assert forall n :: 0 <= n < |stmts| - 1 ==> stmts[1..][n] == stmts[n + 1];
    }
  }

  /** Some child has the flag. */
  predicate AnyKid(kids: seq<Prog>, flag: Facts -> bool) {
    exists n :: 0 <= n < |kids| && flag(kids[n].facts)
  }

  lemma AnyKidConcat(a: seq<Prog>, b: seq<Prog>, flag: Facts -> bool)
    ensures AnyKid(a + b, flag) <==> AnyKid(a, flag) || AnyKid(b, flag)
  {
    var kids := a + b;
    assert forall n :: 0 <= n < |a| ==> kids[n] == a[n];
    assert forall n :: 0 <= n < |b| ==> kids[|a| + n] == b[n];
  }

  const PARTIAL_FLAG: Facts -> bool := (facts: Facts) => facts.usePartial
  const SIMPLE_FLAG: Facts -> bool := (facts: Facts) => facts.isSimple

  lemma {:induction false} OptionFlags(cfg: Config, scope: Scope, p: Option<Program>)
    ensures AnyKid(OptionalKid(cfg, scope, p), PARTIAL_FLAG) <==> InOption(HasPartial, p)
    ensures AnyKid(OptionalKid(cfg, scope, p), SIMPLE_FLAG) <==> InOption(IsSingle, p)
    decreases p, 1
  {
    hide CompileProgram, Somewhere;
    if p.Some? {
      FlagsSay(cfg, scope, p.value);
      assert OptionalKid(cfg, scope, p)[0] == CompileProgram(cfg, scope, p.value);
    }
  }

  lemma {:induction false} StmtFlags(cfg: Config, scope: Scope, s: Stmt)
    ensures AnyKid(StmtKids(cfg, scope, s), PARTIAL_FLAG) <==> InStmt(HasPartial, s)
    ensures AnyKid(StmtKids(cfg, scope, s), SIMPLE_FLAG) <==> InStmt(IsSingle, s)
    decreases s, 1
  {
    hide OptionalKid, InOption, AnyKid;
    NoKid(PARTIAL_FLAG);
    NoKid(SIMPLE_FLAG);
    match s
    case Block(_, program, inverse, decorator, _) =>
      var a, b := OptionalKid(cfg, scope, program), if decorator then [] else OptionalKid(cfg, scope, inverse);
      OptionFlags(cfg, scope, program);
      OptionFlags(cfg, scope, inverse);
      AnyKidConcat(a, b, PARTIAL_FLAG);
      AnyKidConcat(a, b, SIMPLE_FLAG);
    case Partial(_, _, program, _) => OptionFlags(cfg, scope, program);
    case RawBlock(_, content) => RawFlags(content);
    case _ =>
  }

  lemma NoKid(flag: Facts -> bool)
    ensures !AnyKid([], flag)
  {
  }

  lemma RawFlags(content: string)
    ensures !AnyKid([RawKid(content)], PARTIAL_FLAG) && !AnyKid([RawKid(content)], SIMPLE_FLAG)
  {
  }

  lemma {:induction false} BodyFlags(cfg: Config, scope: Scope, stmts: seq<Stmt>)
    ensures AnyKid(BodyKids(cfg, scope, stmts), PARTIAL_FLAG) <==> InBody(HasPartial, stmts)
    ensures AnyKid(BodyKids(cfg, scope, stmts), SIMPLE_FLAG) <==> InBody(IsSingle, stmts)
    decreases stmts, 0
  {
    hide StmtKids, InStmt, AnyKid;
    if stmts == [] {
      NoKid(PARTIAL_FLAG);
      NoKid(SIMPLE_FLAG);
    } else {
      StmtFlags(cfg, scope, stmts[0]);
      BodyFlags(cfg, scope, stmts[1..]);
      AnyKidConcat(StmtKids(cfg, scope, stmts[0]), BodyKids(cfg, scope, stmts[1..]), PARTIAL_FLAG);
      AnyKidConcat(StmtKids(cfg, scope, stmts[0]), BodyKids(cfg, scope, stmts[1..]), SIMPLE_FLAG);
    }
  }

  /**
   What the flags of a compiled program say of the template: that it, or a program in it, calls a partial; that it,
   or a program in it, is a single statement; that it uses a decorator itself. Its parameters are counted.
   */
  lemma {:induction false} FlagsSay(cfg: Config, scope: Scope, p: Program)
    ensures var c := CompileProgram(cfg, scope, p);
      && (c.facts.usePartial <==> Somewhere(HasPartial, p))
      && (c.facts.isSimple <==> Somewhere(IsSingle, p))
      && (c.facts.useDecorators <==> HasDecorator(p))
      && c.blockParams == |(if p.param1.Some? then [p.param1.value] else [])
        + (if p.param2.Some? then [p.param2.value] else [])|
    decreases p, 0
  {
    hide BodyOps, BodyKids, InBody, IsDecorator, FactsOf;
    var ops, kids := BodyOps(cfg, Inner(scope, p), p.stmts, 0), BodyKids(cfg, Inner(scope, p), p.stmts);
    BodyBears(cfg, Inner(scope, p), p.stmts, 0);
    BodyFlags(cfg, Inner(scope, p), p.stmts);
    FactsAre(ops, kids);
  }

  lemma FactsAre(ops: seq<Op>, kids: seq<Prog>)
    ensures var f := FactsOf(ops, kids);
      && (f.usePartial <==> Any(ops, PartialAsked) || AnyKid(kids, PARTIAL_FLAG))
      && (f.isSimple <==> AnyKid(kids, SIMPLE_FLAG))
      && (f.useDecorators <==> Any(ops, DecoratorAsked))
  {
    assert forall n :: 0 <= n < |ops| ==> (Bears(ops[n], PartialAsked) <==> ops[n].InvokePartial?);
    assert forall n :: 0 <= n < |ops| ==> (Bears(ops[n], DecoratorAsked) <==> ops[n].RegisterDecorator?);
    assert forall n :: 0 <= n < |kids| ==> (PARTIAL_FLAG(kids[n].facts) <==> kids[n].facts.usePartial);
    assert forall n :: 0 <= n < |kids| ==> (SIMPLE_FLAG(kids[n].facts) <==> kids[n].facts.isSimple);
  }

  // ---- opcodes in full

  function Bare(h: Path): CallExpr {
    CallExpr(Name(h), Args([], NoHash))
  }

  /** The name is a word and stands for nothing else. */
  ghost predicate Fresh(cfg: Config, scope: Scope, name: string) {
    !ScopedText(name) && !Declared(scope, name) && !cfg.known(name) && !cfg.knownHelpersOnly
  }

  /** What a lambda is told of the text. */
  function Told(cfg: Config, text: string): Option<string> {
    if cfg.mustacheLambdas then Some(text) else None
  }

  /** {{name}} */
  lemma NameOps(cfg: Config, scope: Scope, name: string, base: nat)
    requires Fresh(cfg, scope, name)
    ensures StmtOps(cfg, scope, Mustache(Bare(Path([name], name, 0, false)), false, false), base) == [
      GetContext(0), PushProgram(None), PushProgram(None), GetContext(0), LookupOnContext([name], false, true, false),
      InvokeAmbiguous(name, false, Told(cfg, "")), if cfg.noEscape then Append else AppendEscaped]
  {
    var p := Path([name], name, 0, false);
    ClassIs(cfg, scope, Bare(p), false, p);
    ResolveIsLexical(scope, name);
  }

  /** {{#name}}..{{else}}..{{/name}} */
  lemma BlockListing(cfg: Config, scope: Scope, name: string, program: Program, inverse: Program, text: string,
      base: nat)
    requires Fresh(cfg, scope, name)
    ensures StmtOps(cfg, scope, Block(Bare(Path([name], name, 0, false)), Some(program), Some(inverse), false, text),
        base) == [
      GetContext(0), PushProgram(Some(base)), PushProgram(Some(base + 1)), GetContext(0),
      LookupOnContext([name], false, true, false), InvokeAmbiguous(name, true, Told(cfg, text)),
      PushProgram(Some(base)), PushProgram(Some(base + 1)), EmptyHash(false), AmbiguousBlockValue, Append]
  {
    var p := Path([name], name, 0, false);
    ClassIs(cfg, scope, Bare(p), false, p);
    ResolveIsLexical(scope, name);
  }

  /** {{{{name}}}}..{{{{/name}}}}: a block with one program, of whose text a lambda is told nothing. */
  lemma RawListing(cfg: Config, scope: Scope, name: string, content: string, base: nat)
    requires Fresh(cfg, scope, name)
    ensures StmtOps(cfg, scope, RawBlock(Bare(Path([name], name, 0, false)), content), base) == [
      GetContext(0), PushProgram(Some(base)), PushProgram(None), GetContext(0),
      LookupOnContext([name], false, true, false), InvokeAmbiguous(name, true, Told(cfg, "")),
      PushProgram(Some(base)), PushProgram(None), EmptyHash(false), AmbiguousBlockValue, Append]
    ensures StmtKids(cfg, scope, RawBlock(Bare(Path([name], name, 0, false)), content))
      == [Prog(if content == "" then [] else [AppendContent(content)], [], Facts(false, false, false, false), 0)]
  {
    var p := Path([name], name, 0, false);
    ClassIs(cfg, scope, Bare(p), false, p);
    ResolveIsLexical(scope, name);
  }

  /** {{#a.b}}..{{/a.b}} */
  lemma PathBlockListing(cfg: Config, scope: Scope, a: string, b: string, program: Program, text: string, base: nat)
    requires Fresh(cfg, scope, a) && !ScopedText(a + "." + b)
    ensures StmtOps(cfg, scope, Block(Bare(Path([a, b], a + "." + b, 0, false)), Some(program), None, false, text),
        base) == [
      GetContext(0), LookupOnContext([a, b], false, true, false), ResolvePossibleLambda,
      PushProgram(Some(base)), PushProgram(None), EmptyHash(false), BlockValue(a + "." + b), Append]
  {
    var p := Path([a, b], a + "." + b, 0, false);
    ClassIs(cfg, scope, Bare(p), false, p);
    ResolveIsLexical(scope, a);
    ScopedExactly(p);
  }

  /** {{{helper ../a.b "s" key=x}}} */
  function HelperStmt(helper: string, a: string, b: string, s: string, key: string, x: string): Stmt {
    Mustache(CallExpr(Name(Path([helper], helper, 0, false)),
      Args([PathExpr(Path([a, b], "../" + a + "." + b, 1, false)), LitExpr(StrLit(s))],
        Hash([HashPair(key, PathExpr(Path([x], x, 0, false)))]))), true, false)
  }

  lemma HelperListing(cfg: Config, scope: Scope, helper: string, a: string, b: string, s: string, key: string,
      x: string, base: nat)
    requires Fresh(cfg, scope, helper) && Fresh(cfg, scope, x)
    ensures StmtOps(cfg, scope, HelperStmt(helper, a, b, s, key, x), base) == [
      GetContext(1), LookupOnContext([a, b], false, false, true), PushString(s), PushProgram(None), PushProgram(None),
      PushHash, GetContext(0), LookupOnContext([x], false, false, false), AssignToHash(key), PopHash,
      GetContext(0), LookupOnContext([helper], true, true, false), InvokeHelper(2, helper, true), Append]
  {
    var stmt, p := HelperStmt(helper, a, b, s, key, x), Path([helper], helper, 0, false);
    var params, pairs := stmt.call.args.params, stmt.call.args.hash.pairs;
    ClassIs(cfg, scope, stmt.call, false, p);
    ResolveIsLexical(scope, helper);
    ResolveIsLexical(scope, x);
    ScopedExactly(p);
    ScopedExactly(Path([x], x, 0, false));
    assert params[1..][1..] == [] && pairs[1..] == [];
    assert ParamsOps(cfg, scope, params[1..]) == [PushString(s)];
    assert ParamsOps(cfg, scope, params) == [GetContext(1), LookupOnContext([a, b], false, false, true), PushString(s)];
    assert ValuesOps(cfg, scope, pairs) == [GetContext(0), LookupOnContext([x], false, false, false)];
    assert AssignOps(pairs) == [AssignToHash(key)] by { assert AssignOps(pairs[1..]) == []; }
    assert HashOps(cfg, scope, pairs) ==
      [PushHash, GetContext(0), LookupOnContext([x], false, false, false), AssignToHash(key), PopHash];
    assert SetupOps(cfg, scope, stmt.call.args, None, None, false) ==
      ParamsOps(cfg, scope, params) + PairOps(None, None) + HashOps(cfg, scope, pairs);
    assert StmtOps(cfg, scope, stmt, base) == HelperOps(cfg, scope, stmt.call, None, None) + [Append];
  }

  /** {{#helper x}}..{{/helper}}, with a helper known in advance. */
  lemma KnownListing(cfg: Config, scope: Scope, helper: string, x: string, program: Program, text: string, base: nat)
    requires !ScopedText(helper) && !Declared(scope, helper) && cfg.known(helper)
    requires !ScopedText(x) && !Declared(scope, x)
    ensures StmtOps(cfg, scope, Block(CallExpr(Name(Path([helper], helper, 0, false)),
      Args([PathExpr(Path([x], x, 0, false))], NoHash)), Some(program), None, false, text), base) == [
      GetContext(0), LookupOnContext([x], false, false, false), PushProgram(Some(base)), PushProgram(None),
      EmptyHash(false), InvokeKnownHelper(1, helper), Append]
  {
    var p, params := Path([helper], helper, 0, false), [PathExpr(Path([x], x, 0, false))];
    ClassIs(cfg, scope, CallExpr(Name(p), Args(params, NoHash)), false, p);
    ResolveIsLexical(scope, helper);
    ResolveIsLexical(scope, x);
    ScopedExactly(Path([x], x, 0, false));
    assert params[1..] == [] && ParamsOps(cfg, scope, params[1..]) == [];
    assert ParamsOps(cfg, scope, params) == [GetContext(0), LookupOnContext([x], false, false, false)];
    var b := Block(CallExpr(Name(p), Args(params, NoHash)), Some(program), None, false, text);
    assert SetupOps(cfg, scope, b.call.args, Some(base), None, false) ==
      ParamsOps(cfg, scope, params) + PairOps(Some(base), None) + [EmptyHash(false)];
    assert BlockTail(cfg, scope, b, base) == [];
    assert StmtOps(cfg, scope, b, base) == HelperOps(cfg, scope, b.call, Some(base), None) + [] + [Append];
  }

  /** {{> name}}, indented; the context is pushed, or, if it has to be explicit, nothing in its place. */
  lemma PartialListing(cfg: Config, scope: Scope, name: string, indent: string, base: nat)
    requires indent != ""
    ensures StmtOps(cfg, scope, Partial(Static(Name(Path([name], name, 0, false))), Args([], NoHash), None, indent),
      base) == (if cfg.explicitPartialContext then [PushLiteral(Text("undefined"))] else [GetContext(0), PushContext])
      + [PushProgram(None), PushProgram(None), EmptyHash(true)]
      + (if cfg.preventIndent then [AppendContent(indent), InvokePartial(false, Text(name), ""), Append]
         else [InvokePartial(false, Text(name), indent), Append])
  {
    var params := [PathExpr(IMPLICIT_CONTEXT)];
    assert params[1..] == [] && ParamsOps(cfg, scope, params[1..]) == [] && ParamsOps(cfg, scope, []) == [];
    assert ParamsOps(cfg, scope, params) == [GetContext(0), PushContext];
    var s := Partial(Static(Name(Path([name], name, 0, false))), Args([], NoHash), None, indent);
    var args := PartialArgs(cfg, s.args);
    assert SetupOps(cfg, scope, args, None, None, true) ==
      ParamsOps(cfg, scope, args.params) + PairOps(None, None) + [EmptyHash(true)];
    assert StmtOps(cfg, scope, s, base) == PartialOps(cfg, scope, s, base);
  }

  /** {{@name}} */
  lemma DataListing(cfg: Config, scope: Scope, name: string, base: nat)
    requires !ScopedText("@" + name) && cfg.knownHelpersOnly && !cfg.known(name) && !Declared(scope, name)
    ensures StmtOps(cfg, scope, Mustache(Bare(Path([name], "@" + name, 0, true)), true, false), base) == [
      GetContext(0), LookupData(0, [name], true), ResolvePossibleLambda, Append]
  {
    var p := Path([name], "@" + name, 0, true);
    ClassIs(cfg, scope, Bare(p), false, p);
    ResolveIsLexical(scope, name);
    ScopedExactly(p);
  }
}

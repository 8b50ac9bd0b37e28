/** Block parameters at compile time: what resolution means, and that the emitted pairs are resolutions. */
module Scoping {
  import opened Options
  import opened Ast
  import opened CodeGen

  predicate Declares(n: Names, name: string) {
    n.first == Some(name) || n.second == Some(name)
  }

  /** (depth, param) names the innermost program that declares the name, and the first of its parameters that does. */
  lemma {:induction false} ResolveIsLexical(scope: Scope, name: string)
    ensures match Resolve(scope, name)
      case None => forall n :: 0 <= n < |scope| ==> !Declares(scope[n], name)
      case Some(r) =>
        && r.depth < |scope|
        && Declares(scope[|scope| - 1 - r.depth], name)
        && r.param == (if scope[|scope| - 1 - r.depth].first == Some(name) then 0 else 1)
        && forall n :: |scope| - r.depth <= n < |scope| ==> !Declares(scope[n], name)
  {
    if scope != [] {
      ResolveIsLexical(scope[..|scope| - 1], name);
    }
  }

  // ---- the pairs the compiler emits

  /** Every block-parameter lookup carries the pair its first name resolves to. */
  ghost predicate Lexical(scope: Scope, ops: seq<Op>) {
    forall n :: 0 <= n < |ops| && ops[n].LookupBlockParam? ==>
      ops[n].parts != [] && Resolve(scope, ops[n].parts[0]) == Some(Ref(ops[n].depth, ops[n].param))
  }

  lemma LexicalConcat(scope: Scope, a: seq<Op>, b: seq<Op>)
    ensures Lexical(scope, a + b) <==> Lexical(scope, a) && Lexical(scope, b)
  {
    var ops := a + b;
    assert forall n :: 0 <= n < |a| ==> ops[n] == a[n];
    assert forall n :: 0 <= n < |b| ==> ops[|a| + n] == b[n];
  }

  lemma {:induction false} LexicalExpr(cfg: Config, scope: Scope, e: Expr)
    ensures Lexical(scope, ExprOps(cfg, scope, e))
    decreases e, 0
  {
    match e
    case PathExpr(p) =>
    case LitExpr(l) =>
    case SubExpr(call) => LexicalCall(cfg, scope, call, true, None, None, "");
  }

  lemma {:induction false} LexicalParams(cfg: Config, scope: Scope, params: seq<Expr>)
    ensures Lexical(scope, ParamsOps(cfg, scope, params))
    decreases params, 0
  {
    if params != [] {
      LexicalExpr(cfg, scope, params[0]);
      LexicalParams(cfg, scope, params[1..]);
      LexicalConcat(scope, ExprOps(cfg, scope, params[0]), ParamsOps(cfg, scope, params[1..]));
    }
  }

  lemma {:induction false} LexicalValues(cfg: Config, scope: Scope, pairs: seq<HashPair>)
    ensures Lexical(scope, ValuesOps(cfg, scope, pairs))
    decreases pairs, 0
  {
    if pairs != [] {
      LexicalExpr(cfg, scope, pairs[0].value);
      LexicalValues(cfg, scope, pairs[1..]);
      LexicalConcat(scope, ExprOps(cfg, scope, pairs[0].value), ValuesOps(cfg, scope, pairs[1..]));
    }
  }

  lemma {:induction false} LexicalAssign(scope: Scope, pairs: seq<HashPair>)
    ensures Lexical(scope, AssignOps(pairs))
  {
    if pairs != [] {
      LexicalAssign(scope, pairs[1..]);
      LexicalConcat(scope, AssignOps(pairs[1..]), [AssignToHash(pairs[0].key)]);
    }
  }

  lemma {:induction false} LexicalHash(cfg: Config, scope: Scope, hash: Hash, omitEmpty: bool)
    ensures Lexical(scope, HashArgOps(cfg, scope, hash, omitEmpty))
    decreases hash, 0
  {
    match hash
    case NoHash =>
    case Hash(pairs) =>
      LexicalValues(cfg, scope, pairs);
      LexicalAssign(scope, pairs);
      LexicalConcat(scope, [PushHash], ValuesOps(cfg, scope, pairs));
      LexicalConcat(scope, [PushHash] + ValuesOps(cfg, scope, pairs), AssignOps(pairs));
      LexicalConcat(scope, [PushHash] + ValuesOps(cfg, scope, pairs) + AssignOps(pairs), [PopHash]);
  }

  lemma {:induction false} LexicalSetup(cfg: Config, scope: Scope, args: Args, program: Option<nat>,
      inverse: Option<nat>, omitEmpty: bool)
    ensures Lexical(scope, SetupOps(cfg, scope, args, program, inverse, omitEmpty))
    decreases args, 0
  {
    var params, pair, hash := ParamsOps(cfg, scope, args.params), PairOps(program, inverse),
      HashArgOps(cfg, scope, args.hash, omitEmpty);
    LexicalParams(cfg, scope, args.params);
    LexicalHash(cfg, scope, args.hash, omitEmpty);
    LexicalConcat(scope, params, pair);
    LexicalConcat(scope, params + pair, hash);
  }

  lemma {:induction false} LexicalCall(cfg: Config, scope: Scope, call: CallExpr, sub: bool,
      program: Option<nat>, inverse: Option<nat>, text: string)
    ensures Lexical(scope, CallOps(cfg, scope, call, sub, program, inverse, text))
    decreases call, 1
  {
    var p := HeadPath(call.head);
    match Classify(cfg, scope, call, sub)
    case Helper =>
      LexicalSetup(cfg, scope, call.args, program, inverse, false);
      var rest := if IsKnownHelper(cfg, p) then [InvokeKnownHelper(|call.args.params|, p.parts[0])]
        else PathOps(scope, p, true, true) + [InvokeHelper(|call.args.params|, p.original, SimpleId(p))];
      assert Lexical(scope, rest);
      LexicalConcat(scope, SetupOps(cfg, scope, call.args, program, inverse, false), rest);
    case Simple =>
    case Ambiguous => LexicalAmbiguous(cfg, scope, p, program, inverse, text);
  }

  lemma LexicalAmbiguous(cfg: Config, scope: Scope, p: Path, program: Option<nat>, inverse: Option<nat>, text: string)
    requires p.parts != []
    ensures Lexical(scope, AmbiguousOps(cfg, scope, p, program, inverse, text))
  {
    var path, op := PathOps(scope, p, true, false), InvokeAmbiguous(p.parts[0], program.Some? || inverse.Some?,
      if cfg.mustacheLambdas then Some(text) else None);
    LexicalConcat(scope, [GetContext(p.depth)], PairOps(program, inverse));
    LexicalConcat(scope, [GetContext(p.depth)] + PairOps(program, inverse), path);
    LexicalConcat(scope, [GetContext(p.depth)] + PairOps(program, inverse) + path, [op]);
  }

  lemma LexicalPartial(cfg: Config, scope: Scope, s: Stmt, base: nat)
    requires s.Partial?
    ensures Lexical(scope, PartialOps(cfg, scope, s, base))
  {
    hide CallOps, SetupOps, PartialArgs, PartialOperand;
    var before, name := PartialContextOps(cfg, s.args.params), PartialNameOps(cfg, scope, s.name);
    var setup, tail := SetupOps(cfg, scope, PartialArgs(cfg, s.args), ProgramGuid(s, base), None, true),
      PartialTail(cfg, s);
    if s.name.Dynamic? { LexicalCall(cfg, scope, s.name.call, true, None, None, ""); }
    LexicalSetup(cfg, scope, PartialArgs(cfg, s.args), ProgramGuid(s, base), None, true);
    assert Lexical(scope, before) && Lexical(scope, tail);
    LexicalConcat(scope, before, name);
    LexicalConcat(scope, before + name, setup);
    LexicalConcat(scope, before + name + setup, tail);
  }

  lemma LexicalBlock(cfg: Config, scope: Scope, s: Stmt, base: nat)
    requires s.Block? && !s.decorator
    ensures Lexical(scope, BlockOps(cfg, scope, s, base))
  {
    hide CallOps, BlockText;
    var g, ig := ProgramGuid(s, base), InverseGuid(s, base);
    var call, tail := CallOps(cfg, scope, s.call, false, g, ig, BlockText(s)), BlockTail(cfg, scope, s, base);
    LexicalCall(cfg, scope, s.call, false, g, ig, BlockText(s));
    LexicalConcat(scope, call, tail);
    LexicalConcat(scope, call + tail, [Append]);
  }

  lemma LexicalStmt(cfg: Config, scope: Scope, s: Stmt, base: nat)
    ensures Lexical(scope, StmtOps(cfg, scope, s, base))
  {
    hide CallOps, BlockOps, PartialOps, SetupOps;
    match s
    case Content(v) =>
    case Comment =>
    case Mustache(call, unescaped, decorator) =>
      if decorator {
        LexicalDecorator(cfg, scope, call, HeadText(call.head), None);
      } else {
        LexicalCall(cfg, scope, call, false, None, None, "");
        LexicalConcat(scope, CallOps(cfg, scope, call, false, None, None, ""), [if !unescaped && !cfg.noEscape
          then AppendEscaped else Append]);
      }
    case Block(call, _, _, decorator, _) =>
      if decorator {
        LexicalDecorator(cfg, scope, call, HeadPath(call.head).original, ProgramGuid(s, base));
      } else {
        LexicalBlock(cfg, scope, s, base);
      }
    case RawBlock(_, _) => LexicalBlock(cfg, scope, AsBlock(s), base);
    case Partial(_, _, _, _) => LexicalPartial(cfg, scope, s, base);
  }

  lemma LexicalDecorator(cfg: Config, scope: Scope, call: CallExpr, original: string, program: Option<nat>)
    ensures Lexical(scope, DecoratorOps(cfg, scope, call, original, program))
  {
    LexicalSetup(cfg, scope, call.args, program, None, false);
    LexicalConcat(scope, SetupOps(cfg, scope, call.args, program, None, false),
      [RegisterDecorator(|call.args.params|, original)]);
  }

  /** In the opcodes of every program body, each (depth, param) is the innermost declaration of the name looked up. */
  lemma {:induction false} LexicalBody(cfg: Config, scope: Scope, stmts: seq<Stmt>, base: nat)
    ensures Lexical(scope, BodyOps(cfg, scope, stmts, base))
  {
    if stmts != [] {
      LexicalStmt(cfg, scope, stmts[0], base);
      LexicalBody(cfg, scope, stmts[1..], base + KidCount(stmts[0]));
      LexicalConcat(scope, StmtOps(cfg, scope, stmts[0], base),
        BodyOps(cfg, scope, stmts[1..], base + KidCount(stmts[0])));
    }
  }
}

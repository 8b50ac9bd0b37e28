/** What is asked of the lookups in a template is what is asked of the lookups among its opcodes. */
module Lookups {
  import opened Options
  import opened Ast
  import opened CodeGen
  import opened Slots
  import opened Safety

  /** Every lookup of a block parameter among the opcodes finds what it means. */
  predicate Sound(given: seq<bool>, ops: seq<Op>) {
    forall n :: 0 <= n < |ops| && ops[n].LookupBlockParam? ==> Finds(given, ops[n].depth)
  }

  lemma SoundConcat(given: seq<bool>, a: seq<Op>, b: seq<Op>)
    ensures Sound(given, a + b) <==> Sound(given, a) && Sound(given, b)
  {
    var ops := a + b;
    assert forall n :: 0 <= n < |a| ==> ops[n] == a[n];
    assert forall n :: 0 <= n < |b| ==> ops[|a| + n] == b[n];
  }

  lemma PathSoundOps(scope: Scope, given: seq<bool>, p: Path, strict: bool, falsy: bool)
    ensures Sound(given, PathOps(scope, p, strict, falsy)) <==> PathSound(scope, given, p)
  {
    hide Finds, ScopedId;
    var ops := PathOps(scope, p, strict, falsy);
    assert |ops| == 2 && !ops[0].LookupBlockParam?;
    assert Sound(given, ops) <==> (ops[1].LookupBlockParam? ==> Finds(given, ops[1].depth));
  }

  lemma {:induction false} ExprSoundOps(cfg: Config, scope: Scope, given: seq<bool>, e: Expr)
    ensures Sound(given, ExprOps(cfg, scope, e)) <==> ExprSound(cfg, scope, given, e)
    decreases e, 0
  {
    match e
    case PathExpr(p) => PathSoundOps(scope, given, p, false, false);
    case LitExpr(l) =>
    case SubExpr(call) => CallSoundOps(cfg, scope, given, call, true, None, None, "");
  }

  lemma {:induction false} ParamsSoundOps(cfg: Config, scope: Scope, given: seq<bool>, params: seq<Expr>)
    ensures Sound(given, ParamsOps(cfg, scope, params)) <==> ParamsSound(cfg, scope, given, params)
    decreases params, 0
  {
    hide ExprOps, ExprSound;
    if params != [] {
      ExprSoundOps(cfg, scope, given, params[0]);
      ParamsSoundOps(cfg, scope, given, params[1..]);
      SoundConcat(given, ExprOps(cfg, scope, params[0]), ParamsOps(cfg, scope, params[1..]));
    }
  }

  lemma {:induction false} ValuesSoundOps(cfg: Config, scope: Scope, given: seq<bool>, pairs: seq<HashPair>)
    ensures Sound(given, ValuesOps(cfg, scope, pairs)) <==> ValuesSound(cfg, scope, given, pairs)
    decreases pairs, 0
  {
    hide ExprOps, ExprSound;
    if pairs != [] {
      ExprSoundOps(cfg, scope, given, pairs[0].value);
      ValuesSoundOps(cfg, scope, given, pairs[1..]);
      SoundConcat(given, ExprOps(cfg, scope, pairs[0].value), ValuesOps(cfg, scope, pairs[1..]));
    }
  }

  lemma {:induction false} AssignSound(given: seq<bool>, pairs: seq<HashPair>)
    ensures Sound(given, AssignOps(pairs))
  {
    if pairs != [] {
      AssignSound(given, pairs[1..]);
      SoundConcat(given, AssignOps(pairs[1..]), [AssignToHash(pairs[0].key)]);
    }
  }

  lemma {:induction false} ArgsSoundOps(cfg: Config, scope: Scope, given: seq<bool>, args: Args, g: Option<nat>,
      ig: Option<nat>, omitEmpty: bool)
    ensures Sound(given, SetupOps(cfg, scope, args, g, ig, omitEmpty)) <==> ArgsSound(cfg, scope, given, args)
    decreases args, 0
  {
    hide ParamsOps, ValuesOps, ParamsSound, ValuesSound, AssignOps, Sound;
    var params, hash := ParamsOps(cfg, scope, args.params), HashArgOps(cfg, scope, args.hash, omitEmpty);
    ParamsSoundOps(cfg, scope, given, args.params);
    SoundConcat(given, params + PairOps(g, ig), hash);
    SoundConcat(given, params, PairOps(g, ig));
    OthersSound(given, PairOps(g, ig));
    match args.hash
    case NoHash => OthersSound(given, hash);
    case Hash(pairs) =>
      ValuesSoundOps(cfg, scope, given, pairs);
      AssignSound(given, pairs);
      var values, keys := ValuesOps(cfg, scope, pairs), AssignOps(pairs);
      SoundConcat(given, [PushHash] + values + keys, [PopHash]);
      SoundConcat(given, [PushHash] + values, keys);
      SoundConcat(given, [PushHash], values);
      OthersSound(given, [PushHash]);
      OthersSound(given, [PopHash]);
      assert hash == HashOps(cfg, scope, pairs) == [PushHash] + values + keys + [PopHash];
  }

  lemma OthersSound(given: seq<bool>, ops: seq<Op>)
    requires forall n :: 0 <= n < |ops| ==> !ops[n].LookupBlockParam?
    ensures Sound(given, ops)
  {
  }

  lemma {:induction false} CallSoundOps(cfg: Config, scope: Scope, given: seq<bool>, call: CallExpr, sub: bool,
      g: Option<nat>, ig: Option<nat>, text: string)
    ensures Sound(given, CallOps(cfg, scope, call, sub, g, ig, text)) <==> CallSound(cfg, scope, given, call, sub)
    decreases call, 1
  {
    hide SetupOps, PathOps, ArgsSound, PathSound, Sound, HeadPath;
    var p := HeadPath(call.head);
    match Classify(cfg, scope, call, sub)
    case Helper =>
      var setup := SetupOps(cfg, scope, call.args, g, ig, false);
      ArgsSoundOps(cfg, scope, given, call.args, g, ig, false);
      if IsKnownHelper(cfg, p) {
        var op := InvokeKnownHelper(|call.args.params|, p.parts[0]);
        SoundConcat(given, setup, [op]);
        OthersSound(given, [op]);
      } else {
        var path, op := PathOps(scope, p, true, true), InvokeHelper(|call.args.params|, p.original, SimpleId(p));
        PathSoundOps(scope, given, p, true, true);
        SoundConcat(given, setup, path + [op]);
        SoundConcat(given, path, [op]);
        OthersSound(given, [op]);
      }
    case Simple =>
      PathSoundOps(scope, given, p, true, false);
      SoundConcat(given, PathOps(scope, p, true, false), [ResolvePossibleLambda]);
      OthersSound(given, [ResolvePossibleLambda]);
    case Ambiguous => AmbiguousSoundOps(cfg, scope, given, p, g, ig, text);
  }

  lemma AmbiguousSoundOps(cfg: Config, scope: Scope, given: seq<bool>, p: Path, g: Option<nat>, ig: Option<nat>,
      text: string)
    requires p.parts != []
    ensures Sound(given, AmbiguousOps(cfg, scope, p, g, ig, text)) <==> PathSound(scope, given, p)
  {
    hide PathOps, PathSound, Sound;
    var path, front := PathOps(scope, p, true, false), [GetContext(p.depth)] + PairOps(g, ig);
    var op := InvokeAmbiguous(p.parts[0], g.Some? || ig.Some?, if cfg.mustacheLambdas then Some(text) else None);
    PathSoundOps(scope, given, p, true, false);
    SoundConcat(given, front + path, [op]);
    SoundConcat(given, front, path);
    OthersSound(given, front);
    OthersSound(given, [op]);
  }

  lemma BlockSoundOps(cfg: Config, scope: Scope, given: seq<bool>, s: Stmt, base: nat)
    requires s.Block? && !s.decorator
    ensures Sound(given, BlockOps(cfg, scope, s, base)) <==> CallSound(cfg, scope, given, s.call, false)
  {
    hide CallOps, CallSound, Sound;
    var g, ig := ProgramGuid(s, base), InverseGuid(s, base);
    var call, tail := CallOps(cfg, scope, s.call, false, g, ig, BlockText(s)), BlockTail(cfg, scope, s, base);
    CallSoundOps(cfg, scope, given, s.call, false, g, ig, BlockText(s));
    SoundConcat(given, call + tail, [Append]);
    SoundConcat(given, call, tail);
    OthersSound(given, tail);
    OthersSound(given, [Append]);
  }

  lemma PartialSoundOps(cfg: Config, scope: Scope, given: seq<bool>, s: Stmt, base: nat)
    requires s.Partial?
    ensures Sound(given, PartialOps(cfg, scope, s, base)) <==> StmtSound(cfg, scope, given, s)
  {
    hide CallOps, SetupOps, PartialOperand, CallSound, ArgsSound, Sound;
    var before, name := PartialContextOps(cfg, s.args.params), PartialNameOps(cfg, scope, s.name);
    var setup, tail := SetupOps(cfg, scope, PartialArgs(cfg, s.args), ProgramGuid(s, base), None, true),
      PartialTail(cfg, s);
    if s.name.Dynamic? {
      CallSoundOps(cfg, scope, given, s.name.call, true, None, None, "");
    } else {
      OthersSound(given, name);
    }
    ArgsSoundOps(cfg, scope, given, PartialArgs(cfg, s.args), ProgramGuid(s, base), None, true);
    ImplicitSound(cfg, scope, given, s.args);
    SoundConcat(given, before + name + setup, tail);
    SoundConcat(given, before + name, setup);
    SoundConcat(given, before, name);
    OthersSound(given, before);
    OthersSound(given, tail);
  }

  lemma ImplicitSound(cfg: Config, scope: Scope, given: seq<bool>, args: Args)
    ensures ArgsSound(cfg, scope, given, PartialArgs(cfg, args)) <==> ArgsSound(cfg, scope, given, args)
  {
    var implicit := [PathExpr(IMPLICIT_CONTEXT)];
    assert implicit[1..] == [];
    assert ExprSound(cfg, scope, given, implicit[0]);
    assert ParamsSound(cfg, scope, given, implicit[1..]) && ParamsSound(cfg, scope, given, implicit);
  }

  lemma StmtSoundOps(cfg: Config, scope: Scope, given: seq<bool>, s: Stmt, base: nat)
    ensures Sound(given, StmtOps(cfg, scope, s, base)) <==> StmtSound(cfg, scope, given, s)
  {
    hide CallOps, BlockOps, PartialOps, SetupOps, CallSound, ArgsSound, Sound;
    match s
    case Content(v) => OthersSound(given, ContentOps(v));
    case Comment => OthersSound(given, []);
    case Mustache(call, unescaped, decorator) =>
      if decorator {
        DecoratorSoundOps(cfg, scope, given, call, HeadText(call.head), None);
      } else {
        var op := if !unescaped && !cfg.noEscape then AppendEscaped else Append;
        CallSoundOps(cfg, scope, given, call, false, None, None, "");
        SoundConcat(given, CallOps(cfg, scope, call, false, None, None, ""), [op]);
        OthersSound(given, [op]);
      }
    case Block(call, _, _, decorator, _) =>
      if decorator {
        DecoratorSoundOps(cfg, scope, given, call, HeadPath(call.head).original, ProgramGuid(s, base));
      } else {
        BlockSoundOps(cfg, scope, given, s, base);
      }
    case RawBlock(_, _) => BlockSoundOps(cfg, scope, given, AsBlock(s), base);
    case Partial(_, _, _, _) => PartialSoundOps(cfg, scope, given, s, base);
  }

  lemma DecoratorSoundOps(cfg: Config, scope: Scope, given: seq<bool>, call: CallExpr, original: string, g: Option<nat>)
    ensures Sound(given, DecoratorOps(cfg, scope, call, original, g)) <==> ArgsSound(cfg, scope, given, call.args)
  {
    hide SetupOps, ArgsSound, Sound;
    var op := RegisterDecorator(|call.args.params|, original);
    ArgsSoundOps(cfg, scope, given, call.args, g, None, false);
    SoundConcat(given, SetupOps(cfg, scope, call.args, g, None, false), [op]);
    OthersSound(given, [op]);
  }

  /** The lookups of a body find what they mean if and only if those among its opcodes do. */
  lemma {:induction false} BodySoundOps(cfg: Config, scope: Scope, given: seq<bool>, stmts: seq<Stmt>, base: nat)
    ensures Sound(given, BodyOps(cfg, scope, stmts, base)) <==> BodySound(cfg, scope, given, stmts)
  {
    hide StmtOps, StmtSound, Sound;
    if stmts == [] {
      OthersSound(given, []);
    } else {
      StmtSoundOps(cfg, scope, given, stmts[0], base);
      BodySoundOps(cfg, scope, given, stmts[1..], base + KidCount(stmts[0]));
      SoundConcat(given, StmtOps(cfg, scope, stmts[0], base),
        BodyOps(cfg, scope, stmts[1..], base + KidCount(stmts[0])));
    }
  }
}

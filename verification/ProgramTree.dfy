/** The shape of what the compiler produces: program numbers, children and the use-of-depths flag. */
module ProgramTree {
  import opened Options
  import opened Ast
  import opened CodeGen

  /** The program numbers a list of opcodes pushes. */
  ghost function Refs(ops: seq<Op>): set<nat> {
    set n | 0 <= n < |ops| && ops[n].PushProgram? && ops[n].guid.Some? :: ops[n].guid.value
  }

  /** The numbers pushed are exactly those from from up to, not including, to. */
  ghost predicate Numbers(ops: seq<Op>, from: nat, to: nat) {
    forall g: nat :: g in Refs(ops) <==> from <= g < to
  }

  /** Some opcode of the program or of a descendant reaches a parent context. */
  ghost predicate ReachesUp(p: Prog) {
    (exists n :: 0 <= n < |p.ops| && p.ops[n].GetContext? && p.ops[n].depth > 0)
      || (exists n :: 0 <= n < |p.kids| && ReachesUp(p.kids[n]))
  }

  /** The pushed program numbers are exactly the places of the children, at every level, and the depth flag is right. */
  ghost predicate WellFormed(p: Prog) {
    && Numbers(p.ops, 0, |p.kids|)
    && (p.facts.useDepths <==> ReachesUp(p))
    && forall n :: 0 <= n < |p.kids| ==> WellFormed(p.kids[n])
  }

  lemma RefsConcat(a: seq<Op>, b: seq<Op>)
    ensures Refs(a + b) == Refs(a) + Refs(b)
  {
    var ops := a + b;
    forall g | g in Refs(a) + Refs(b) ensures g in Refs(ops) {
      if g in Refs(a) {
        var n :| 0 <= n < |a| && a[n] == PushProgram(Some(g));
        assert ops[n] == a[n];
      } else {
        var n :| 0 <= n < |b| && b[n] == PushProgram(Some(g));
        assert ops[|a| + n] == b[n];
      }
    }
    forall g | g in Refs(ops) ensures g in Refs(a) + Refs(b) {
      var n :| 0 <= n < |ops| && ops[n] == PushProgram(Some(g));
      if n < |a| { assert a[n] == ops[n]; } else { assert b[n - |a|] == ops[n]; }
    }
  }

  lemma RefsOne(op: Op)
    ensures Refs([op]) == if op.PushProgram? && op.guid.Some? then {op.guid.value} else {}
  {
    assert [op][0] == op;
  }

  function Guids(program: Option<nat>, inverse: Option<nat>): set<nat> {
    (if program.Some? then {program.value} else {}) + (if inverse.Some? then {inverse.value} else {})
  }

  lemma RefsPair(program: Option<nat>, inverse: Option<nat>)
    ensures Refs(PairOps(program, inverse)) == Guids(program, inverse)
  {
    assert PairOps(program, inverse) == [PushProgram(program)] + [PushProgram(inverse)];
    RefsConcat([PushProgram(program)], [PushProgram(inverse)]);
    RefsOne(PushProgram(program));
    RefsOne(PushProgram(inverse));
  }

  lemma {:induction false} RefsPath(scope: Scope, p: Path, strict: bool, falsy: bool)
    ensures Refs(PathOps(scope, p, strict, falsy)) == {}
  {
    forall n | 0 <= n < |PathOps(scope, p, strict, falsy)| ensures !PathOps(scope, p, strict, falsy)[n].PushProgram? {
    }
  }

  lemma {:induction false} RefsExpr(cfg: Config, scope: Scope, e: Expr)
    ensures Refs(ExprOps(cfg, scope, e)) == {}
    decreases e, 0
  {
    match e
    case PathExpr(p) => RefsPath(scope, p, false, false);
    case LitExpr(l) => RefsOne(LiteralOp(cfg, l));
    case SubExpr(call) => RefsCall(cfg, scope, call, true, None, None, "");
  }

  lemma {:induction false} RefsParams(cfg: Config, scope: Scope, params: seq<Expr>)
    ensures Refs(ParamsOps(cfg, scope, params)) == {}
    decreases params, 0
  {
    if params != [] {
      RefsExpr(cfg, scope, params[0]);
      RefsParams(cfg, scope, params[1..]);
      RefsConcat(ExprOps(cfg, scope, params[0]), ParamsOps(cfg, scope, params[1..]));
    }
  }

  lemma {:induction false} RefsValues(cfg: Config, scope: Scope, pairs: seq<HashPair>)
    ensures Refs(ValuesOps(cfg, scope, pairs)) == {}
    decreases pairs, 0
  {
    if pairs != [] {
      RefsExpr(cfg, scope, pairs[0].value);
      RefsValues(cfg, scope, pairs[1..]);
      RefsConcat(ExprOps(cfg, scope, pairs[0].value), ValuesOps(cfg, scope, pairs[1..]));
    }
  }

  lemma {:induction false} RefsAssign(pairs: seq<HashPair>)
    ensures Refs(AssignOps(pairs)) == {}
  {
    if pairs != [] {
      RefsAssign(pairs[1..]);
      RefsConcat(AssignOps(pairs[1..]), [AssignToHash(pairs[0].key)]);
      RefsOne(AssignToHash(pairs[0].key));
    }
  }

  lemma {:induction false} RefsHash(cfg: Config, scope: Scope, hash: Hash, omitEmpty: bool)
    ensures Refs(HashArgOps(cfg, scope, hash, omitEmpty)) == {}
    decreases hash, 0
  {
    match hash
    case NoHash => RefsOne(EmptyHash(omitEmpty));
    case Hash(pairs) =>
      RefsValues(cfg, scope, pairs);
      RefsAssign(pairs);
      RefsOne(PushHash);
      RefsOne(PopHash);
      RefsConcat([PushHash], ValuesOps(cfg, scope, pairs));
      RefsConcat([PushHash] + ValuesOps(cfg, scope, pairs), AssignOps(pairs));
      RefsConcat([PushHash] + ValuesOps(cfg, scope, pairs) + AssignOps(pairs), [PopHash]);
  }

  lemma {:induction false} RefsSetup(cfg: Config, scope: Scope, args: Args, program: Option<nat>, inverse: Option<nat>,
      omitEmpty: bool)
    ensures Refs(SetupOps(cfg, scope, args, program, inverse, omitEmpty)) == Guids(program, inverse)
    decreases args, 0
  {
    var params, hash := ParamsOps(cfg, scope, args.params), HashArgOps(cfg, scope, args.hash, omitEmpty);
    RefsParams(cfg, scope, args.params);
    RefsPair(program, inverse);
    RefsHash(cfg, scope, args.hash, omitEmpty);
    RefsConcat(params, PairOps(program, inverse));
    RefsConcat(params + PairOps(program, inverse), hash);
  }

  /** Whatever its class, a call names its program and its inverse. A plain value names neither. */
  lemma {:induction false} RefsCall(cfg: Config, scope: Scope, call: CallExpr, sub: bool,
      program: Option<nat>, inverse: Option<nat>, text: string)
    ensures Refs(CallOps(cfg, scope, call, sub, program, inverse, text)) ==
      if Classify(cfg, scope, call, sub).Simple? then {} else Guids(program, inverse)
    decreases call, 1
  {
    var p := HeadPath(call.head);
    match Classify(cfg, scope, call, sub)
    case Helper =>
      var setup := SetupOps(cfg, scope, call.args, program, inverse, false);
      var path, op := PathOps(scope, p, true, true), InvokeHelper(|call.args.params|, p.original, SimpleId(p));
      RefsSetup(cfg, scope, call.args, program, inverse, false);
      if IsKnownHelper(cfg, p) {
        RefsOne(InvokeKnownHelper(|call.args.params|, p.parts[0]));
        RefsConcat(setup, [InvokeKnownHelper(|call.args.params|, p.parts[0])]);
      } else {
        RefsPath(scope, p, true, true);
        RefsOne(op);
        RefsConcat(path, [op]);
        RefsConcat(setup, path + [op]);
      }
    case Simple =>
      RefsPath(scope, p, true, false);
      RefsOne(ResolvePossibleLambda);
      RefsConcat(PathOps(scope, p, true, false), [ResolvePossibleLambda]);
    case Ambiguous =>
      RefsAmbiguous(cfg, scope, p, program, inverse, text);
  }

  lemma RefsAmbiguous(cfg: Config, scope: Scope, p: Path, program: Option<nat>, inverse: Option<nat>, text: string)
    requires p.parts != []
    ensures Refs(AmbiguousOps(cfg, scope, p, program, inverse, text)) == Guids(program, inverse)
  {
    var path := PathOps(scope, p, true, false);
    var op := InvokeAmbiguous(p.parts[0], program.Some? || inverse.Some?, if cfg.mustacheLambdas then Some(text)
      else None);
    RefsOne(GetContext(p.depth));
    RefsPair(program, inverse);
    RefsPath(scope, p, true, false);
    RefsOne(op);
    RefsConcat([GetContext(p.depth)], PairOps(program, inverse));
    RefsConcat([GetContext(p.depth)] + PairOps(program, inverse), path);
    RefsConcat([GetContext(p.depth)] + PairOps(program, inverse) + path, [op]);
  }

  lemma RefsBlock(cfg: Config, scope: Scope, s: Stmt, base: nat)
    requires s.Block? && !s.decorator
    ensures Refs(BlockOps(cfg, scope, s, base)) == Guids(ProgramGuid(s, base), InverseGuid(s, base))
  {
    hide CallOps, HeadPath, ProgramGuid, InverseGuid, BlockText;
    var g, ig := ProgramGuid(s, base), InverseGuid(s, base);
    var call, tail := CallOps(cfg, scope, s.call, false, g, ig, BlockText(s)), BlockTail(cfg, scope, s, base);
    RefsCall(cfg, scope, s.call, false, g, ig, BlockText(s));
    RefsBlockTail(cfg, scope, s, base);
    RefsOne(Append);
    RefsConcat(call, tail);
    RefsConcat(call + tail, [Append]);
  }

  lemma RefsBlockTail(cfg: Config, scope: Scope, s: Stmt, base: nat)
    requires s.Block? && !s.decorator
    ensures Refs(BlockTail(cfg, scope, s, base)) ==
      if Classify(cfg, scope, s.call, false).Helper? then {} else Guids(ProgramGuid(s, base), InverseGuid(s, base))
  {
    if !Classify(cfg, scope, s.call, false).Helper? {
      var pair := PairOps(ProgramGuid(s, base), InverseGuid(s, base));
      var end := BlockTail(cfg, scope, s, base)[2..];
      assert BlockTail(cfg, scope, s, base) == pair + end;
      RefsPair(ProgramGuid(s, base), InverseGuid(s, base));
      assert forall n :: 0 <= n < |end| ==> !end[n].PushProgram?;
      RefsConcat(pair, end);
    }
  }

  lemma RefsPartial(cfg: Config, scope: Scope, s: Stmt, base: nat)
    requires s.Partial?
    ensures Refs(PartialOps(cfg, scope, s, base)) == Guids(ProgramGuid(s, base), None)
  {
    hide CallOps, SetupOps, ProgramGuid, PartialArgs, PartialOperand;
    var before, name := PartialContextOps(cfg, s.args.params), PartialNameOps(cfg, scope, s.name);
    var setup, tail := SetupOps(cfg, scope, PartialArgs(cfg, s.args), ProgramGuid(s, base), None, true),
      PartialTail(cfg, s);
    if s.name.Dynamic? { RefsCall(cfg, scope, s.name.call, true, None, None, ""); }
    RefsSetup(cfg, scope, PartialArgs(cfg, s.args), ProgramGuid(s, base), None, true);
    assert forall n :: 0 <= n < |before| ==> !before[n].PushProgram?;
    assert forall n :: 0 <= n < |tail| ==> !tail[n].PushProgram?;
    assert Refs(before) == {} && Refs(tail) == {};
    RefsConcat(before, name);
    RefsConcat(before + name, setup);
    RefsConcat(before + name + setup, tail);
  }

  /** A statement names exactly the children it adds. */
  lemma RefsStmt(cfg: Config, scope: Scope, s: Stmt, base: nat)
    ensures Numbers(StmtOps(cfg, scope, s, base), base, base + KidCount(s))
  {
    hide CallOps, BlockOps, PartialOps, SetupOps, Classify, PairOps, HeadPath, PartialOperand;
    match s
    case Content(v) => if v != "" { RefsOne(AppendContent(v)); }
    case Comment =>
    case Mustache(call, unescaped, decorator) =>
      if decorator {
        RefsDecorator(cfg, scope, call, HeadText(call.head), None);
      } else {
        var op := if !unescaped && !cfg.noEscape then AppendEscaped else Append;
        RefsCall(cfg, scope, call, false, None, None, "");
        RefsOne(op);
        RefsConcat(CallOps(cfg, scope, call, false, None, None, ""), [op]);
      }
    case Block(call, _, _, decorator, _) =>
      if decorator {
        RefsDecorator(cfg, scope, call, HeadPath(call.head).original, ProgramGuid(s, base));
      } else {
        RefsBlock(cfg, scope, s, base);
      }
    case RawBlock(_, _) => RefsBlock(cfg, scope, AsBlock(s), base);
    case Partial(_, _, _, _) => RefsPartial(cfg, scope, s, base);
  }

  lemma RefsDecorator(cfg: Config, scope: Scope, call: CallExpr, original: string, program: Option<nat>)
    ensures Refs(DecoratorOps(cfg, scope, call, original, program)) == Guids(program, None)
  {
    RefsSetup(cfg, scope, call.args, program, None, false);
    RefsOne(RegisterDecorator(|call.args.params|, original));
    RefsConcat(SetupOps(cfg, scope, call.args, program, None, false),
      [RegisterDecorator(|call.args.params|, original)]);
  }

  lemma {:induction false} RefsBody(cfg: Config, scope: Scope, stmts: seq<Stmt>, base: nat)
    ensures Numbers(BodyOps(cfg, scope, stmts, base), base, base + |BodyKids(cfg, scope, stmts)|)
  {
    hide StmtOps, StmtKids;
    if stmts != [] {
      var n := KidCount(stmts[0]);
      RefsStmt(cfg, scope, stmts[0], base);
      RefsBody(cfg, scope, stmts[1..], base + n);
      RefsConcat(StmtOps(cfg, scope, stmts[0], base), BodyOps(cfg, scope, stmts[1..], base + n));
    }
  }

  ghost predicate AllWellFormed(kids: seq<Prog>) {
    forall n :: 0 <= n < |kids| ==> WellFormed(kids[n])
  }

  lemma {:induction false} OptionWellFormed(cfg: Config, scope: Scope, p: Option<Program>)
    ensures AllWellFormed(OptionalKid(cfg, scope, p))
    decreases p, 1
  {
    if p.Some? { CompiledWellFormed(cfg, scope, p.value); }
  }

  lemma {:induction false} StmtWellFormed(cfg: Config, scope: Scope, s: Stmt)
    ensures AllWellFormed(StmtKids(cfg, scope, s))
    decreases s, 1
  {
    match s
    case Block(_, program, inverse, decorator, _) =>
      OptionWellFormed(cfg, scope, program);
      OptionWellFormed(cfg, scope, inverse);
    case Partial(_, _, program, _) => OptionWellFormed(cfg, scope, program);
    case RawBlock(_, content) =>
      assert forall n :: 0 <= n < |ContentOps(content)| ==>
        !ContentOps(content)[n].PushProgram? && !Deep(ContentOps(content)[n]);
    case _ =>
  }

  lemma {:induction false} BodyWellFormed(cfg: Config, scope: Scope, stmts: seq<Stmt>)
    ensures AllWellFormed(BodyKids(cfg, scope, stmts))
    decreases stmts, 0
  {
    if stmts != [] {
      StmtWellFormed(cfg, scope, stmts[0]);
      BodyWellFormed(cfg, scope, stmts[1..]);
    }
  }

  /**
   In every compiled program, at every level, the pushed program numbers are exactly 0 to the number of
   children, and the depth flag says whether the program or a descendant reaches a parent context.
   */
  lemma {:induction false} CompiledWellFormed(cfg: Config, scope: Scope, p: Program)
    ensures WellFormed(CompileProgram(cfg, scope, p))
    decreases p, 0
  {
    hide BodyOps, BodyKids, Refs;
    RefsBody(cfg, Inner(scope, p), p.stmts, 0);
    BodyWellFormed(cfg, Inner(scope, p), p.stmts);
    KidsFaithful(CompileProgram(cfg, scope, p).kids);
  }

  /** The depth flags of well-formed children say which of them reach a parent context. */
  lemma KidsFaithful(kids: seq<Prog>)
    requires AllWellFormed(kids)
    ensures (exists n :: 0 <= n < |kids| && kids[n].facts.useDepths) <==>
      (exists n :: 0 <= n < |kids| && ReachesUp(kids[n]))
  {
    forall n | 0 <= n < |kids| ensures kids[n].facts.useDepths <==> ReachesUp(kids[n]) {
      assert WellFormed(kids[n]);
    }
  }
}

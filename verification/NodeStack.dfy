/**
 The stack of source nodes in src/handlebars_compiler.c: every node handed to handlebars_compiler_accept lies on it
 while it is compiled, those of subexpressions, hashes, paths and child programs on top of those around them.
 */
module NodeStack {
  import opened Options
  import opened Ast
  import opened CodeGen

  /** HANDLEBARS_COMPILER_STACK_SIZE */
  const STACK_SIZE: nat := 64

  /**
   How compiling a node ends. The guard in front of a push lets a 65th node pass, so a stack that runs out is
   overrun before the guard throws.
   */
  datatype Verdict = Done | Thrown | Overrun

  /** The first of two things to go wrong. */
  function Then(a: Verdict, b: Verdict): Verdict {
    if a.Done? then b else a
  }

  // ---- what happens with room for so many more nodes, in the order in which nodes are visited

  function PathVerdict(room: nat): Verdict {
    if room == 0 then Overrun else Done
  }

  function ExprVerdict(cfg: Config, scope: Scope, room: nat, e: Expr): Verdict
    decreases e, 0
  {
    if room == 0 then Overrun
    else if e.SubExpr? then CallVerdict(cfg, scope, room - 1, e.call, true)
    else Done
  }

  function ParamsVerdict(cfg: Config, scope: Scope, room: nat, params: seq<Expr>): Verdict
    decreases params, 0
  {
    if params == [] then Done
    else Then(ExprVerdict(cfg, scope, room, params[0]), ParamsVerdict(cfg, scope, room, params[1..]))
  }

  function ValuesVerdict(cfg: Config, scope: Scope, room: nat, pairs: seq<HashPair>): Verdict
    decreases pairs, 0
  {
    if pairs == [] then Done
    else Then(ExprVerdict(cfg, scope, room, pairs[0].value), ValuesVerdict(cfg, scope, room, pairs[1..]))
  }

  function HashVerdict(cfg: Config, scope: Scope, room: nat, hash: Hash): Verdict
    decreases hash, 0
  {
    match hash
    case NoHash => Done
    case Hash(pairs) => if room == 0 then Overrun else ValuesVerdict(cfg, scope, room - 1, pairs)
  }

  function ArgsVerdict(cfg: Config, scope: Scope, room: nat, args: Args): Verdict
    decreases args, 0
  {
    Then(ParamsVerdict(cfg, scope, room, args.params), HashVerdict(cfg, scope, room, args.hash))
  }

  /** The callee of a helper call, once its arguments are there: only a helper not known in advance is looked up. */
  function CalleeVerdict(cfg: Config, room: nat, p: Path): Verdict {
    if IsKnownHelper(cfg, p) then Done else if cfg.knownHelpersOnly then Thrown else PathVerdict(room)
  }

  function CallVerdict(cfg: Config, scope: Scope, room: nat, call: CallExpr, sub: bool): Verdict
    decreases call, 0
  {
    if Classify(cfg, scope, call, sub).Helper? then
      Then(ArgsVerdict(cfg, scope, room, call.args), CalleeVerdict(cfg, room, HeadPath(call.head)))
    else PathVerdict(room)
  }

  function NameVerdict(cfg: Config, scope: Scope, room: nat, name: PartialName): Verdict {
    if name.Static? then Done
    else if room == 0 then Overrun
    else CallVerdict(cfg, scope, room - 1, name.call, true)
  }

  function OptionalVerdict(cfg: Config, scope: Scope, room: nat, p: Option<Program>): Verdict
    decreases p, 1
  {
    if p.Some? then ProgramVerdict(cfg, scope, room, p.value) else Done
  }

  /** Inside the node of the statement. */
  function InsideVerdict(cfg: Config, scope: Scope, room: nat, s: Stmt): Verdict
    decreases s, 1
  {
    match s
    case Content(_) => Done
    case Comment => Done
    case Mustache(call, _, decorator) =>
      if decorator then ArgsVerdict(cfg, scope, room, call.args) else CallVerdict(cfg, scope, room, call, false)
    case Block(call, program, inverse, decorator, _) =>
      Then(OptionalVerdict(cfg, scope, room, program),
        if decorator then ArgsVerdict(cfg, scope, room, call.args)
        else Then(OptionalVerdict(cfg, scope, room, inverse), CallVerdict(cfg, scope, room, call, false)))
    case RawBlock(call, _) => Then(PathVerdict(room), CallVerdict(cfg, scope, room, call, false))
    case Partial(name, args, program, _) =>
      if |args.params| > 1 then Thrown
      else Then(NameVerdict(cfg, scope, room, name),
        Then(OptionalVerdict(cfg, scope, room, program), ArgsVerdict(cfg, scope, room, PartialArgs(cfg, args))))
  }

  function StmtVerdict(cfg: Config, scope: Scope, room: nat, s: Stmt): Verdict
    decreases s, 2
  {
    if room == 0 then Overrun else InsideVerdict(cfg, scope, room - 1, s)
  }

  function BodyVerdict(cfg: Config, scope: Scope, room: nat, stmts: seq<Stmt>): Verdict
    decreases stmts, 0
  {
    if stmts == [] then Done
    else Then(StmtVerdict(cfg, scope, room, stmts[0]), BodyVerdict(cfg, scope, room, stmts[1..]))
  }

  function ProgramVerdict(cfg: Config, scope: Scope, room: nat, p: Program): Verdict
    decreases p, 0
  {
    if room == 0 then Overrun else BodyVerdict(cfg, Inner(scope, p), room - 1, p.stmts)
  }

  // ---- the most nodes that lie on top of one another

  function Max(a: nat, b: nat): nat {
    if a > b then a else b
  }

  function ExprNodes(cfg: Config, scope: Scope, e: Expr): nat
    decreases e, 0
  {
    1 + if e.SubExpr? then CallNodes(cfg, scope, e.call, true) else 0
  }

  function ParamsNodes(cfg: Config, scope: Scope, params: seq<Expr>): nat
    decreases params, 0
  {
    if params == [] then 0 else Max(ExprNodes(cfg, scope, params[0]), ParamsNodes(cfg, scope, params[1..]))
  }

  function ValuesNodes(cfg: Config, scope: Scope, pairs: seq<HashPair>): nat
    decreases pairs, 0
  {
    if pairs == [] then 0 else Max(ExprNodes(cfg, scope, pairs[0].value), ValuesNodes(cfg, scope, pairs[1..]))
  }

  /** A hash is a node of its own around its values. */
  function ArgsNodes(cfg: Config, scope: Scope, args: Args): nat
    decreases args, 0
  {
    Max(ParamsNodes(cfg, scope, args.params),
      if args.hash.Hash? then 1 + ValuesNodes(cfg, scope, args.hash.pairs) else 0)
  }

  /** The path of a call is a node, unless the call is of a known helper. */
  function CallNodes(cfg: Config, scope: Scope, call: CallExpr, sub: bool): nat
    decreases call, 0
  {
    if Classify(cfg, scope, call, sub).Helper? then
      Max(ArgsNodes(cfg, scope, call.args), if IsKnownHelper(cfg, HeadPath(call.head)) then 0 else 1)
    else 1
  }

  function OptionalNodes(cfg: Config, scope: Scope, p: Option<Program>): nat
    decreases p, 1
  {
    if p.Some? then ProgramNodes(cfg, scope, p.value) else 0
  }

  function InsideNodes(cfg: Config, scope: Scope, s: Stmt): nat
    decreases s, 1
  {
    match s
    case Content(_) => 0
    case Comment => 0
    case Mustache(call, _, decorator) =>
      if decorator then ArgsNodes(cfg, scope, call.args) else CallNodes(cfg, scope, call, false)
    case Block(call, program, inverse, decorator, _) =>
      Max(OptionalNodes(cfg, scope, program),
        if decorator then ArgsNodes(cfg, scope, call.args)
        else Max(OptionalNodes(cfg, scope, inverse), CallNodes(cfg, scope, call, false)))
    case RawBlock(call, _) => Max(1, CallNodes(cfg, scope, call, false))
    case Partial(name, args, program, _) =>
      Max(if name.Dynamic? then 1 + CallNodes(cfg, scope, name.call, true) else 0,
        Max(OptionalNodes(cfg, scope, program), ArgsNodes(cfg, scope, PartialArgs(cfg, args))))
  }

  function StmtNodes(cfg: Config, scope: Scope, s: Stmt): nat
    decreases s, 2
  {
    1 + InsideNodes(cfg, scope, s)
  }

  function BodyNodes(cfg: Config, scope: Scope, stmts: seq<Stmt>): nat
    decreases stmts, 0
  {
    if stmts == [] then 0 else Max(StmtNodes(cfg, scope, stmts[0]), BodyNodes(cfg, scope, stmts[1..]))
  }

  function ProgramNodes(cfg: Config, scope: Scope, p: Program): nat
    decreases p, 0
  {
    1 + BodyNodes(cfg, Inner(scope, p), p.stmts)
  }

  // ---- how compiling ends, from what compiles and how many nodes that takes

  /** Compiling succeeds exactly if nothing is wrong with the tree and its nodes find room. */
  predicate Exact(v: Verdict, compiles: bool, nodes: nat, room: nat) {
    && (v.Done? <==> compiles && nodes <= room)
    && (v.Overrun? ==> nodes > room)
    && (v.Thrown? ==> !compiles)
  }

  lemma {:induction false} ExprExact(cfg: Config, scope: Scope, room: nat, e: Expr)
    ensures Exact(ExprVerdict(cfg, scope, room, e), ExprCompiles(cfg, scope, e), ExprNodes(cfg, scope, e), room)
    decreases e, 0
  {
    hide CallVerdict, CallNodes, CallCompiles;
    if e.SubExpr? && room > 0 { CallExact(cfg, scope, room - 1, e.call, true); }
  }

  lemma {:induction false} ParamsExact(cfg: Config, scope: Scope, room: nat, params: seq<Expr>)
    ensures Exact(ParamsVerdict(cfg, scope, room, params), ParamsCompile(cfg, scope, params),
      ParamsNodes(cfg, scope, params), room)
    decreases params, 0
  {
    hide ExprVerdict, ExprNodes, ExprCompiles;
    if params != [] {
      ExprExact(cfg, scope, room, params[0]);
      ParamsExact(cfg, scope, room, params[1..]);
    }
  }

  lemma {:induction false} ValuesExact(cfg: Config, scope: Scope, room: nat, pairs: seq<HashPair>)
    ensures Exact(ValuesVerdict(cfg, scope, room, pairs), ValuesCompile(cfg, scope, pairs),
      ValuesNodes(cfg, scope, pairs), room)
    decreases pairs, 0
  {
    hide ExprVerdict, ExprNodes, ExprCompiles;
    if pairs != [] {
      ExprExact(cfg, scope, room, pairs[0].value);
      ValuesExact(cfg, scope, room, pairs[1..]);
    }
  }

  lemma {:induction false} ArgsExact(cfg: Config, scope: Scope, room: nat, args: Args)
    ensures Exact(ArgsVerdict(cfg, scope, room, args), ArgsCompile(cfg, scope, args), ArgsNodes(cfg, scope, args), room)
    decreases args, 0
  {
    hide ParamsVerdict, ParamsNodes, ParamsCompile, ValuesVerdict, ValuesNodes, ValuesCompile;
    ParamsExact(cfg, scope, room, args.params);
    if args.hash.Hash? && room > 0 { ValuesExact(cfg, scope, room - 1, args.hash.pairs); }
  }

  lemma {:induction false} CallExact(cfg: Config, scope: Scope, room: nat, call: CallExpr, sub: bool)
    ensures Exact(CallVerdict(cfg, scope, room, call, sub), CallCompiles(cfg, scope, call, sub),
      CallNodes(cfg, scope, call, sub), room)
    decreases call, 0
  {
    hide ArgsVerdict, ArgsNodes, ArgsCompile, Classify, IsKnownHelper;
    ArgsExact(cfg, scope, room, call.args);
  }

  lemma {:induction false} OptionalExact(cfg: Config, scope: Scope, room: nat, p: Option<Program>)
    ensures Exact(OptionalVerdict(cfg, scope, room, p),
      OptionalCompiles(cfg, scope, p), OptionalNodes(cfg, scope, p), room)
    decreases p, 1
  {
    hide ProgramVerdict, ProgramNodes, ProgramCompiles;
    if p.Some? { ProgramExact(cfg, scope, room, p.value); }
  }

  lemma {:induction false} BlockExact(cfg: Config, scope: Scope, room: nat, s: Stmt)
    requires s.Block?
    ensures Exact(InsideVerdict(cfg, scope, room, s), StmtCompiles(cfg, scope, s), InsideNodes(cfg, scope, s), room)
    decreases s, 0
  {
    hide OptionalVerdict, OptionalNodes, OptionalCompiles, ArgsVerdict, ArgsNodes, ArgsCompile;
    hide CallVerdict, CallNodes, CallCompiles;
    OptionalExact(cfg, scope, room, s.program);
    if s.decorator {
      ArgsExact(cfg, scope, room, s.call.args);
    } else {
      OptionalExact(cfg, scope, room, s.inverse);
      CallExact(cfg, scope, room, s.call, false);
    }
  }

  lemma {:induction false} PartialExact(cfg: Config, scope: Scope, room: nat, s: Stmt)
    requires s.Partial?
    ensures Exact(InsideVerdict(cfg, scope, room, s), StmtCompiles(cfg, scope, s), InsideNodes(cfg, scope, s), room)
    decreases s, 0
  {
    hide OptionalVerdict, OptionalNodes, OptionalCompiles, ArgsVerdict, ArgsNodes, ArgsCompile;
    hide CallVerdict, CallNodes, CallCompiles;
    if s.name.Dynamic? && room > 0 { CallExact(cfg, scope, room - 1, s.name.call, true); }
    OptionalExact(cfg, scope, room, s.program);
    ArgsExact(cfg, scope, room, PartialArgs(cfg, s.args));
    PartialArgsCompile(cfg, scope, s.args);
  }

  lemma {:induction false} StmtExact(cfg: Config, scope: Scope, room: nat, s: Stmt)
    ensures Exact(StmtVerdict(cfg, scope, room, s), StmtCompiles(cfg, scope, s), StmtNodes(cfg, scope, s), room)
    decreases s, 1
  {
    if room > 0 {
      hide ArgsVerdict, ArgsNodes, ArgsCompile, CallVerdict, CallNodes, CallCompiles;
      match s
      case Block(_, _, _, _, _) => BlockExact(cfg, scope, room - 1, s);
      case Partial(_, _, _, _) => PartialExact(cfg, scope, room - 1, s);
      case Mustache(call, _, decorator) =>
        ArgsExact(cfg, scope, room - 1, call.args);
        CallExact(cfg, scope, room - 1, call, false);
      case RawBlock(call, _) => CallExact(cfg, scope, room - 1, call, false);
      case _ =>
    }
  }

  lemma {:induction false} BodyExact(cfg: Config, scope: Scope, room: nat, stmts: seq<Stmt>)
    ensures Exact(BodyVerdict(cfg, scope, room, stmts),
      BodyCompiles(cfg, scope, stmts), BodyNodes(cfg, scope, stmts), room)
    decreases stmts, 0
  {
    hide StmtVerdict, StmtNodes, StmtCompiles;
    if stmts != [] {
      StmtExact(cfg, scope, room, stmts[0]);
      BodyExact(cfg, scope, room, stmts[1..]);
    }
  }

  /**
   A template that compiles, given room without end, overruns the stack exactly if more nodes than there are
   places lie on top of one another; one that does not either throws or has overrun it before it could.
   */
  lemma {:induction false} ProgramExact(cfg: Config, scope: Scope, room: nat, p: Program)
    ensures Exact(ProgramVerdict(cfg, scope, room, p),
      ProgramCompiles(cfg, scope, p), ProgramNodes(cfg, scope, p), room)
    decreases p, 0
  {
    hide BodyVerdict, BodyNodes, BodyCompiles;
    if room > 0 { BodyExact(cfg, Inner(scope, p), room - 1, p.stmts); }
  }

  lemma PartialArgsCompile(cfg: Config, scope: Scope, args: Args)
    ensures ArgsCompile(cfg, scope, PartialArgs(cfg, args)) <==> ArgsCompile(cfg, scope, args)
  {
    var implicit := [PathExpr(IMPLICIT_CONTEXT)];
    assert implicit[1..] == [];
    assert ParamsCompile(cfg, scope, implicit[1..]) && ParamsCompile(cfg, scope, implicit);
  }

  // ---- a template that needs too many

  const A: Head := Name(Path(["a"], "a", 0, false))

  /** a b=(a b=( .. a .. )), n calls deep. */
  function HashNest(n: nat): Expr {
    if n == 0 then PathExpr(A.path) else SubExpr(HashCall(HashNest(n - 1)))
  }

  function HashCall(value: Expr): CallExpr {
    CallExpr(A, Args([], Hash([HashPair("b", value)])))
  }

  lemma {:induction false} HashNestNodes(cfg: Config, scope: Scope, n: nat)
    requires !cfg.known("a") && !cfg.knownHelpersOnly && Resolve(scope, "a").None?
    ensures ExprNodes(cfg, scope, HashNest(n)) == 2 * n + 1 && ExprCompiles(cfg, scope, HashNest(n))
  {
    if n > 0 {
      HashNestNodes(cfg, scope, n - 1);
      HashCallNodes(cfg, scope, HashNest(n - 1), true);
    }
  }

  lemma HashCallNodes(cfg: Config, scope: Scope, value: Expr, sub: bool)
    requires !cfg.known("a") && !cfg.knownHelpersOnly && Resolve(scope, "a").None?
    requires ExprCompiles(cfg, scope, value)
    ensures CallNodes(cfg, scope, HashCall(value), sub) == 1 + ExprNodes(cfg, scope, value)
    ensures CallCompiles(cfg, scope, HashCall(value), sub)
  {
    hide ExprNodes, ExprCompiles;
    var pairs := [HashPair("b", value)];
    assert pairs[1..] == [];
    assert ValuesNodes(cfg, scope, pairs) == Max(ExprNodes(cfg, scope, value), 0);
    assert ValuesCompile(cfg, scope, pairs);
    var call := HashCall(value);
    assert ParamsCompile(cfg, scope, call.args.params);
    assert Classify(cfg, scope, call, sub).Helper?;
    assert ArgsNodes(cfg, scope, call.args) == 1 + ExprNodes(cfg, scope, value);
  }

  lemma OneStmt(cfg: Config, scope: Scope, s: Stmt)
    ensures BodyNodes(cfg, scope, [s]) == StmtNodes(cfg, scope, s)
    ensures BodyCompiles(cfg, scope, [s]) <==> StmtCompiles(cfg, scope, s)
  {
    assert [s][1..] == [];
    assert BodyNodes(cfg, scope, []) == 0 && BodyCompiles(cfg, scope, []);
  }

  /** {{a b=(a b=( .. ))}} compiles up to 31 calls deep; one more overruns the stack. */
  lemma DeepHash(cfg: Config, n: nat)
    requires n > 0 && !cfg.known("a") && !cfg.knownHelpersOnly
    ensures var p := Program([Mustache(HashCall(HashNest(n - 1)), false, false)], None, None);
      && ProgramNodes(cfg, [], p) == 2 * n + 2
      && ProgramVerdict(cfg, [], STACK_SIZE, p) == if n <= 31 then Done else Overrun
  {
    var s := Mustache(HashCall(HashNest(n - 1)), false, false);
    var p := Program([s], None, None);
    var scope := Inner([], p);
    assert scope == [Names(None, None)];
    assert Resolve(scope, "a").None? by { assert scope[..0] == []; }
    HashNestNodes(cfg, scope, n - 1);
    HashCallNodes(cfg, scope, HashNest(n - 1), false);
    OneStmt(cfg, scope, s);
    ProgramExact(cfg, [], STACK_SIZE, p);
  }

  /** {{#a}}{{#a}} .. {{/a}}{{/a}}, n blocks deep, or the same with {{^a}}. */
  function BlockNest(n: nat, inverse: bool): Program {
    Program(if n == 0 then [] else [NestBlock(BlockNest(n - 1, inverse), inverse)], None, None)
  }

  function NestBlock(p: Program, inverse: bool): Stmt {
    var program, other := if inverse then None else Some(p), if inverse then Some(p) else None;
    Block(CallExpr(A, Args([], NoHash)), program, other, false, "")
  }

  lemma {:induction false} BlockNestNodes(cfg: Config, scope: Scope, n: nat, inverse: bool)
    requires !cfg.known("a") && Resolve(scope, "a").None?
    ensures ProgramNodes(cfg, scope, BlockNest(n, inverse)) == 2 * n + 1
    ensures ProgramCompiles(cfg, scope, BlockNest(n, inverse))
    decreases n
  {
    var p := BlockNest(n, inverse);
    var inner := Inner(scope, p);
    assert inner[..|scope|] == scope;
    assert Resolve(inner, "a").None?;
    if n > 0 {
      var q := BlockNest(n - 1, inverse);
      BlockNestNodes(cfg, inner, n - 1, inverse);
      NestBlockNodes(cfg, inner, q, inverse);
      OneStmt(cfg, inner, NestBlock(q, inverse));
    }
  }

  lemma NestBlockNodes(cfg: Config, scope: Scope, p: Program, inverse: bool)
    requires !cfg.known("a") && Resolve(scope, "a").None? && ProgramCompiles(cfg, scope, p)
    ensures StmtNodes(cfg, scope, NestBlock(p, inverse)) == 1 + Max(ProgramNodes(cfg, scope, p), 1)
    ensures StmtCompiles(cfg, scope, NestBlock(p, inverse))
  {
    hide ProgramNodes, ProgramCompiles;
    var b := NestBlock(p, inverse);
    assert !Classify(cfg, scope, b.call, false).Helper?;
    assert CallNodes(cfg, scope, b.call, false) == 1 && CallCompiles(cfg, scope, b.call, false);
    assert OptionalNodes(cfg, scope, b.program) == if inverse then 0 else ProgramNodes(cfg, scope, p);
    assert OptionalNodes(cfg, scope, b.inverse) == if inverse then ProgramNodes(cfg, scope, p) else 0;
    assert OptionalCompiles(cfg, scope, b.program) && OptionalCompiles(cfg, scope, b.inverse);
  }

  /** Blocks compile up to 31 deep as well, whichever of their programs they lie in. */
  lemma DeepBlocks(cfg: Config, n: nat, inverse: bool)
    requires !cfg.known("a")
    ensures ProgramNodes(cfg, [], BlockNest(n, inverse)) == 2 * n + 1
    ensures ProgramVerdict(cfg, [], STACK_SIZE, BlockNest(n, inverse)) == if n <= 31 then Done else Overrun
  {
    BlockNestNodes(cfg, [], n, inverse);
    ProgramExact(cfg, [], STACK_SIZE, BlockNest(n, inverse));
  }
}

/**
 The opcodes of src/handlebars_opcodes.h and, as functions, which of them
 src/handlebars_compiler.c emits for each syntax node. The compiler class in
 Compiler.dfy is proved to emit exactly these.
 */
module CodeGen {
  import opened Options
  import opened Ast

  datatype Operand = Text(s: string) | Long(n: int) | Flag(b: bool)

  datatype Op =
    | GetContext(depth: nat)
    | PushContext
    | LookupOnContext(parts: seq<string>, falsy: bool, strict: bool, scoped: bool)
    | LookupData(depth: nat, parts: seq<string>, strict: bool)
    | LookupBlockParam(depth: nat, param: nat, parts: seq<string>)
    | PushLiteral(operand: Operand)
    | PushString(s: string)
    | PushProgram(guid: Option<nat>)
    | PushHash
    | AssignToHash(key: string)
    | PopHash
    | EmptyHash(omitEmpty: bool)
    | InvokeHelper(argc: nat, name: string, simple: bool)
    | InvokeKnownHelper(argc: nat, name: string)
    | InvokeAmbiguous(name: string, isBlock: bool, text: Option<string>)
    | ResolvePossibleLambda
    | BlockValue(name: string)
    | AmbiguousBlockValue
    | InvokePartial(dynamic: bool, target: Operand, indent: string)
    | Append
    | AppendEscaped
    | AppendContent(s: string)
    | RegisterDecorator(argc: nat, name: string)

  /** A compiled program: its opcodes, its children in guid order, and the facts the compiler records about it. */
  datatype Prog = Prog(ops: seq<Op>, kids: seq<Prog>, facts: Facts, blockParams: nat)

  /** The result flags. */
  datatype Facts = Facts(useDepths: bool, usePartial: bool, isSimple: bool, useDecorators: bool)

  const NO_FACTS: Facts := Facts(false, false, false, false)

  function Or(a: Facts, b: Facts): Facts {
    Facts(a.useDepths || b.useDepths, a.usePartial || b.usePartial, a.isSimple || b.isSimple, a.useDecorators
      || b.useDecorators)
  }

  /**
   Compiler options. known holds the built-in and the listed helpers; integral gives the value of a
   numeral that strtol and strtod agree on and that is not zero.
   */
  datatype Config = Config(
    noEscape: bool, knownHelpersOnly: bool, preventIndent: bool, explicitPartialContext: bool,
    mustacheLambdas: bool, known: string -> bool, integral: string -> Option<int>)

  // ---- block parameters

  /** The block parameter names of one enclosing program. */
  datatype Names = Names(first: Option<string>, second: Option<string>)

  /** Enclosing programs, outermost first. */
  type Scope = seq<Names>

  datatype Ref = Ref(depth: nat, param: nat)

  /** handlebars_compiler_block_param_index: innermost program first, first parameter first. */
  function Resolve(scope: Scope, name: string): Option<Ref> {
    if scope == [] then None
    else
      var top := scope[|scope| - 1];
      if top.first == Some(name) then Some(Ref(0, 0))
      else if top.second == Some(name) then Some(Ref(0, 1))
      else match Resolve(scope[..|scope| - 1], name)
        case None => None
        case Some(r) => Some(Ref(r.depth + 1, r.param))
  }

  function ResolvePath(scope: Scope, p: Path): Option<Ref> {
    if p.depth == 0 && !ScopedId(p) && p.parts != [] then Resolve(scope, p.parts[0]) else None
  }

  // ---- classification

  datatype Class = Helper | Ambiguous | Simple

  predicate IsKnownHelper(cfg: Config, p: Path) {
    p.parts != [] && cfg.known(p.parts[0])
  }

  /** handlebars_compiler_classify_sexpr; sub says that the node is a subexpression. */
  function Classify(cfg: Config, scope: Scope, call: CallExpr, sub: bool): Class {
    var p := HeadPath(call.head);
    var blockParam := SimpleId(p) && Resolve(scope, p.parts[0]).Some?;
    var helper := !blockParam && (sub || HasArguments(call));
    var eligible := !blockParam && (SimpleId(p) || helper);
    if helper then Helper
    else if !eligible then Simple
    else if IsKnownHelper(cfg, p) then Helper
    else if cfg.knownHelpersOnly then Simple
    else Ambiguous
  }

  // ---- expressions

  function PathOps(scope: Scope, p: Path, strict: bool, falsy: bool): seq<Op> {
    [GetContext(p.depth)] +
    (match ResolvePath(scope, p)
     case Some(r) => [LookupBlockParam(r.depth, r.param, p.parts)]
     case None =>
       if p.parts == [] then [PushContext]
       else if p.data then [LookupData(p.depth, p.parts, strict)]
       else [LookupOnContext(p.parts, falsy, strict, ScopedId(p))])
  }

  function NumberOperand(cfg: Config, val: string): Operand {
    if val == "0" then Long(0)
    else match cfg.integral(val)
      case Some(n) => Long(n)
      case None => Text(val)
  }

  function LiteralOp(cfg: Config, l: Literal): Op {
    match l
    case StrLit(v) => PushString(v)
    case NumLit(v) => PushLiteral(NumberOperand(cfg, v))
    case BoolLit(v) => PushLiteral(Flag(v != "false"))
    case UndefLit(_) => PushLiteral(Text("undefined"))
    case NullLit(_) => PushLiteral(Text("null"))
  }

  function ExprOps(cfg: Config, scope: Scope, e: Expr): seq<Op>
    decreases e, 0
  {
    match e
    case PathExpr(p) => PathOps(scope, p, false, false)
    case LitExpr(l) => [LiteralOp(cfg, l)]
    case SubExpr(call) => CallOps(cfg, scope, call, true, None, None, "")
  }

  function ParamsOps(cfg: Config, scope: Scope, params: seq<Expr>): seq<Op>
    decreases params, 0
  {
    if params == [] then []
    else ExprOps(cfg, scope, params[0]) + ParamsOps(cfg, scope, params[1..])
  }

  function ValuesOps(cfg: Config, scope: Scope, pairs: seq<HashPair>): seq<Op>
    decreases pairs, 0
  {
    if pairs == [] then []
    else ExprOps(cfg, scope, pairs[0].value) + ValuesOps(cfg, scope, pairs[1..])
  }

  /** The values were pushed first to last, so the keys are assigned last to first. */
  function AssignOps(pairs: seq<HashPair>): seq<Op> {
    if pairs == [] then []
    else AssignOps(pairs[1..]) + [AssignToHash(pairs[0].key)]
  }

  function HashOps(cfg: Config, scope: Scope, pairs: seq<HashPair>): seq<Op>
    decreases pairs, 1
  {
    [PushHash] + ValuesOps(cfg, scope, pairs) + AssignOps(pairs) + [PopHash]
  }

  function HashArgOps(cfg: Config, scope: Scope, hash: Hash, omitEmpty: bool): seq<Op>
    decreases hash, 0
  {
    match hash
    case Hash(pairs) => HashOps(cfg, scope, pairs)
    case NoHash => [EmptyHash(omitEmpty)]
  }

  function PairOps(program: Option<nat>, inverse: Option<nat>): seq<Op> {
    [PushProgram(program), PushProgram(inverse)]
  }

  /** handlebars_compiler_setup_full_mustache_params. */
  function SetupOps(cfg: Config, scope: Scope, args: Args, program: Option<nat>, inverse: Option<nat>,
      omitEmpty: bool): seq<Op>
    decreases args, 0
  {
    ParamsOps(cfg, scope, args.params) + PairOps(program, inverse) + HashArgOps(cfg, scope, args.hash, omitEmpty)
  }

  function HelperOps(cfg: Config, scope: Scope, call: CallExpr, program: Option<nat>, inverse: Option<nat>): seq<Op>
    decreases call, 0
  {
    var p := HeadPath(call.head);
    SetupOps(cfg, scope, call.args, program, inverse, false) +
    (if IsKnownHelper(cfg, p) then [InvokeKnownHelper(|call.args.params|, p.parts[0])]
     else PathOps(scope, p, true, true) + [InvokeHelper(|call.args.params|, p.original, SimpleId(p))])
  }

  function AmbiguousOps(cfg: Config, scope: Scope, p: Path, program: Option<nat>, inverse: Option<nat>,
      text: string): seq<Op>
    requires p.parts != []
  {
    [GetContext(p.depth)] + PairOps(program, inverse) + PathOps(scope, p, true, false) +
    [InvokeAmbiguous(p.parts[0], program.Some? || inverse.Some?, if cfg.mustacheLambdas then Some(text) else None)]
  }

  /** The three classes of call; what follows a block's call is added by BlockTail. */
  function CallOps(cfg: Config, scope: Scope, call: CallExpr, sub: bool,
      program: Option<nat>, inverse: Option<nat>, text: string): seq<Op>
    decreases call, 1
  {
    var p := HeadPath(call.head);
    match Classify(cfg, scope, call, sub)
    case Helper => HelperOps(cfg, scope, call, program, inverse)
    case Simple => PathOps(scope, p, true, false) + [ResolvePossibleLambda]
    case Ambiguous => AmbiguousOps(cfg, scope, p, program, inverse, text)
  }

  // ---- statements

  /** How many child programs a statement adds; a decorator block ignores its inverse. */
  function KidCount(s: Stmt): nat {
    match s
    case Block(_, program, inverse, decorator, _) =>
      (if program.Some? then 1 else 0) + (if inverse.Some? && !decorator then 1 else 0)
    case RawBlock(_, _) => 1
    case Partial(_, _, program, _) => if program.Some? then 1 else 0
    case _ => 0
  }

  function Guid(p: Option<Program>, at: nat): Option<nat> {
    if p.Some? then Some(at) else None
  }

  function ProgramGuid(s: Stmt, base: nat): Option<nat>
    requires s.Block? || s.Partial?
  {
    Guid(s.program, base)
  }

  function InverseGuid(s: Stmt, base: nat): Option<nat>
    requires s.Block?
  {
    if s.decorator then None else Guid(s.inverse, base + if s.program.Some? then 1 else 0)
  }

  function HeadText(h: Head): string {
    match h
    case Name(p) => p.original
    case Constant(l) => l.val
  }

  /** A static partial name that is an integral number is stored as one. */
  function PartialOperand(cfg: Config, name: PartialName): Operand {
    match name
    case Static(Constant(NumLit(v))) => (match cfg.integral(v) case Some(n) => Long(n) case None => Text(v))
    case Static(h) => Text(HeadText(h))
    case Dynamic(_) => Flag(false)
  }

  /** What is pushed for the context of a partial. */
  function PartialContextOps(cfg: Config, params: seq<Expr>): seq<Op> {
    if params == [] && cfg.explicitPartialContext then [PushLiteral(Text("undefined"))] else []
  }

  function PartialArgs(cfg: Config, args: Args): Args {
    if args.params == [] && !cfg.explicitPartialContext then args.(params := [PathExpr(IMPLICIT_CONTEXT)]) else args
  }

  function PartialNameOps(cfg: Config, scope: Scope, name: PartialName): seq<Op> {
    match name
    case Static(_) => []
    case Dynamic(call) => CallOps(cfg, scope, call, true, None, None, "")
  }

  /** The end of a partial: the indent, if it is to be written here, and the call. */
  function PartialTail(cfg: Config, s: Stmt): seq<Op>
    requires s.Partial?
  {
    (if cfg.preventIndent && s.indent != "" then [AppendContent(s.indent)] else []) +
    [InvokePartial(s.name.Dynamic?, PartialOperand(cfg, s.name), if cfg.preventIndent then "" else s.indent), Append]
  }

  /** _handlebars_compiler_accept_partial, after the check on the number of parameters. */
  function PartialOps(cfg: Config, scope: Scope, s: Stmt, base: nat): seq<Op>
    requires s.Partial?
  {
    PartialContextOps(cfg, s.args.params) + PartialNameOps(cfg, scope, s.name) +
    SetupOps(cfg, scope, PartialArgs(cfg, s.args), ProgramGuid(s, base), None, true) + PartialTail(cfg, s)
  }

  /** The text mustache-style lambdas are given. */
  function BlockText(s: Stmt): string
    requires s.Block?
  {
    if s.program.None? then "" else s.text
  }

  function BlockOps(cfg: Config, scope: Scope, s: Stmt, base: nat): seq<Op>
    requires s.Block? && !s.decorator
  {
    CallOps(cfg, scope, s.call, false, ProgramGuid(s, base), InverseGuid(s, base), BlockText(s)) +
    BlockTail(cfg, scope, s, base) + [Append]
  }

  /** What follows the call of a block, before the final append. */
  function BlockTail(cfg: Config, scope: Scope, s: Stmt, base: nat): seq<Op>
    requires s.Block? && !s.decorator
  {
    var program, inverse := ProgramGuid(s, base), InverseGuid(s, base);
    match Classify(cfg, scope, s.call, false)
    case Helper => []
    case Simple => PairOps(program, inverse) + [EmptyHash(false), BlockValue(HeadPath(s.call.head).original)]
    case Ambiguous => PairOps(program, inverse) + [EmptyHash(false), AmbiguousBlockValue]
  }

  function DecoratorOps(cfg: Config, scope: Scope, call: CallExpr, original: string, program: Option<nat>): seq<Op> {
    SetupOps(cfg, scope, call.args, program, None, false) + [RegisterDecorator(|call.args.params|, original)]
  }

  /** A raw block is compiled like a block over a program that is one piece of text; lambdas see none of it. */
  function AsBlock(s: Stmt): (b: Stmt)
    requires s.RawBlock?
    ensures b.Block? && !b.decorator
  {
    Block(s.call, Some(Program([Content(s.content)], None, None)), None, false, "")
  }

  function ContentOps(v: string): seq<Op> {
    if v == "" then [] else [AppendContent(v)]
  }

  function StmtOps(cfg: Config, scope: Scope, s: Stmt, base: nat): seq<Op> {
    match s
    case Content(v) => ContentOps(v)
    case Comment => []
    case Mustache(call, unescaped, decorator) =>
      if decorator then DecoratorOps(cfg, scope, call, HeadText(call.head), None)
      else CallOps(cfg, scope, call, false, None, None, "") + [if !unescaped && !cfg.noEscape then AppendEscaped
        else Append]
    case Block(call, _, _, decorator, _) =>
      if decorator then DecoratorOps(cfg, scope, call, HeadPath(call.head).original, ProgramGuid(s, base))
      else BlockOps(cfg, scope, s, base)
    case RawBlock(_, _) => BlockOps(cfg, scope, AsBlock(s), base)
    case Partial(_, _, _, _) => PartialOps(cfg, scope, s, base)
  }

  function BodyOps(cfg: Config, scope: Scope, stmts: seq<Stmt>, base: nat): seq<Op> {
    if stmts == [] then []
    else StmtOps(cfg, scope, stmts[0], base) + BodyOps(cfg, scope, stmts[1..], base + KidCount(stmts[0]))
  }

  // ---- child programs and result flags

  function OptionalKid(cfg: Config, scope: Scope, p: Option<Program>): seq<Prog>
    decreases p, 1
  {
    if p.Some? then [CompileProgram(cfg, scope, p.value)] else []
  }

  /** The content of a raw block is compiled by itself, without a program node around it. */
  function RawKid(content: string): Prog {
    Prog(ContentOps(content), [], NO_FACTS, 0)
  }

  function StmtKids(cfg: Config, scope: Scope, s: Stmt): (kids: seq<Prog>)
    ensures |kids| == KidCount(s)
    decreases s, 1
  {
    match s
    case Block(_, program, inverse, decorator, _) =>
      OptionalKid(cfg, scope, program) + (if decorator then [] else OptionalKid(cfg, scope, inverse))
    case RawBlock(_, content) => [RawKid(content)]
    case Partial(_, _, program, _) => OptionalKid(cfg, scope, program)
    case _ => []
  }

  function BodyKids(cfg: Config, scope: Scope, stmts: seq<Stmt>): seq<Prog>
    decreases stmts, 0
  {
    if stmts == [] then []
    else StmtKids(cfg, scope, stmts[0]) + BodyKids(cfg, scope, stmts[1..])
  }

  predicate Deep(op: Op) {
    op.GetContext? && op.depth > 0
  }

  /** The result flags opcodes and children account for. Use of decorators does not spread to the parent. */
  function FactsOf(ops: seq<Op>, kids: seq<Prog>): Facts {
    Facts(
      (exists n :: 0 <= n < |ops| && Deep(ops[n])) || (exists n :: 0 <= n < |kids| && kids[n].facts.useDepths),
      (exists n :: 0 <= n < |ops| && ops[n].InvokePartial?)
        || (exists n :: 0 <= n < |kids| && kids[n].facts.usePartial),
      (exists n :: 0 <= n < |kids| && kids[n].facts.isSimple),
      (exists n :: 0 <= n < |ops| && ops[n].RegisterDecorator?))
  }

  function Inner(scope: Scope, p: Program): Scope {
    scope + [Names(p.param1, p.param2)]
  }

  function ParamCount(p: Program): nat {
    (if p.param1.Some? then 1 else 0) + (if p.param2.Some? then 1 else 0)
  }

  function CompileProgram(cfg: Config, scope: Scope, p: Program): Prog
    decreases p, 0
  {
    var inner := Inner(scope, p);
    var ops, kids := BodyOps(cfg, inner, p.stmts, 0), BodyKids(cfg, inner, p.stmts);
    Prog(ops, kids,
      Or(FactsOf(ops, kids), Facts(false, false, |p.stmts| == 1, false)),
      ParamCount(p))
  }

  // ---- when compilation succeeds

  predicate ExprCompiles(cfg: Config, scope: Scope, e: Expr)
    decreases e, 0
  {
    e.SubExpr? ==> CallCompiles(cfg, scope, e.call, true)
  }

  predicate ParamsCompile(cfg: Config, scope: Scope, params: seq<Expr>)
    decreases params, 0
  {
    params == [] || (ExprCompiles(cfg, scope, params[0]) && ParamsCompile(cfg, scope, params[1..]))
  }

  predicate ValuesCompile(cfg: Config, scope: Scope, pairs: seq<HashPair>)
    decreases pairs, 0
  {
    pairs == [] || (ExprCompiles(cfg, scope, pairs[0].value) && ValuesCompile(cfg, scope, pairs[1..]))
  }

  predicate ArgsCompile(cfg: Config, scope: Scope, args: Args)
    decreases args, 0
  {
    ParamsCompile(cfg, scope, args.params) && (args.hash.Hash? ==> ValuesCompile(cfg, scope, args.hash.pairs))
  }

  /** A helper call compiles unless only known helpers are allowed and this is not one. */
  predicate CallCompiles(cfg: Config, scope: Scope, call: CallExpr, sub: bool)
    decreases call, 0
  {
    Classify(cfg, scope, call, sub).Helper? ==>
      && ArgsCompile(cfg, scope, call.args)
      && (IsKnownHelper(cfg, HeadPath(call.head)) || !cfg.knownHelpersOnly)
  }

  predicate OptionalCompiles(cfg: Config, scope: Scope, p: Option<Program>)
    decreases p, 1
  {
    p.Some? ==> ProgramCompiles(cfg, scope, p.value)
  }

  predicate StmtCompiles(cfg: Config, scope: Scope, s: Stmt)
    decreases s, 1
  {
    match s
    case Content(_) => true
    case Comment => true
    case Mustache(call, _, decorator) =>
      if decorator then ArgsCompile(cfg, scope, call.args) else CallCompiles(cfg, scope, call, false)
    case RawBlock(call, _) => CallCompiles(cfg, scope, call, false)
    case Block(call, program, inverse, decorator, _) =>
      && OptionalCompiles(cfg, scope, program)
      && (if decorator then ArgsCompile(cfg, scope, call.args)
          else OptionalCompiles(cfg, scope, inverse) && CallCompiles(cfg, scope, call, false))
    case Partial(name, args, program, _) =>
      && |args.params| <= 1
      && (name.Dynamic? ==> CallCompiles(cfg, scope, name.call, true))
      && OptionalCompiles(cfg, scope, program)
      && ArgsCompile(cfg, scope, args)
  }

  predicate BodyCompiles(cfg: Config, scope: Scope, stmts: seq<Stmt>)
    decreases stmts, 0
  {
    stmts == [] || (StmtCompiles(cfg, scope, stmts[0]) && BodyCompiles(cfg, scope, stmts[1..]))
  }

  predicate ProgramCompiles(cfg: Config, scope: Scope, p: Program)
    decreases p, 0
  {
    BodyCompiles(cfg, Inner(scope, p), p.stmts)
  }
}

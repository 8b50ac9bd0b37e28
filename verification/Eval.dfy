/**
 Templates evaluated on their syntax tree: arguments left to right, blocks by evaluating their
 programs; no opcodes, no stacks, no program numbers. By name, this is what a template means. By
 slot, it differs in one thing: block parameters are taken from where the machine would look.
 */
module Eval {
  import opened Options
  import opened AssocList
  import opened Ast
  import opened CodeGen
  import opened Vm

  /** The block parameters of one enclosing program: their names and, if it was given any, their values. */
  datatype Frame = Frame(names: Names, params: Option<Value>)

  /** How block parameters are found: by the name a program gave them, or by the place the machine keeps them at. */
  datatype Naming = ByName | BySlot

  /** What is in force at one place of a template; frames are outermost first. */
  datatype Scene = Scene(contexts: seq<Value>, data: Value, frames: seq<Frame>, blocks: seq<Value>, naming: Naming)

  /** The value of the innermost parameter called name, first parameter first; None if no program declares it. */
  function Bound(frames: seq<Frame>, name: string): Option<Option<Value>> {
    if frames == [] then None
    else
      var top := frames[|frames| - 1];
      if top.names.first == Some(name) then Some(ParamOf(top, 0))
      else if top.names.second == Some(name) then Some(ParamOf(top, 1))
      else Bound(frames[..|frames| - 1], name)
  }

  function ParamOf(f: Frame, k: nat): Option<Value> {
    if f.params.None? then None else Item(f.params.value, k)
  }

  /** The value the machine keeps in a slot. */
  function Slot(params: seq<Value>, depth: nat, param: nat): Option<Value> {
    if depth < |params| then Item(Top(params, depth), param) else None
  }

  /** The value in the slot the compiler counted to; None if no program declares the name. */
  function Placed(frames: seq<Frame>, name: string): Option<Option<Value>> {
    match Resolve(ScopeOf(frames), name)
    case None => None
    case Some(r) => Some(Slot(ParamsOf(frames), r.depth, r.param))
  }

  function Found(s: Scene, name: string): Option<Option<Value>> {
    if s.naming.BySlot? then Placed(s.frames, name) else Bound(s.frames, name)
  }

  /** The part of a scene a callee can see. */
  function View(s: Scene): Env {
    Env(s.contexts, s.data, ParamsOf(s.frames), s.blocks)
  }

  function ParamsOf(frames: seq<Frame>): seq<Value> {
    if frames == [] then []
    else
      var f := frames[|frames| - 1];
      ParamsOf(frames[..|frames| - 1]) + (if f.params.Some? then [f.params.value] else [])
  }

  function EvalPath(i: Interp, s: Scene, p: Path, strict: bool): Result<Value> {
    if p.depth == 0 && !ScopedId(p) && p.parts != [] && Found(s, p.parts[0]).Some? then
      match Found(s, p.parts[0]).value
      case None => Ok(VNull)
      case Some(v) => Ok(Descend(i, v, p.parts[1..]))
    else if p.parts == [] then Ok(ContextAt(View(s), p.depth))
    else if p.data then i.fromData(View(s), p.depth, p.parts, strict)
    else i.onContext(ContextAt(View(s), p.depth), View(s), p.parts, strict, ScopedId(p))
  }

  function EvalLiteral(cfg: Config, l: Literal): Value {
    match l
    case StrLit(v) => VStr(v)
    case NumLit(v) => OperandValue(NumberOperand(cfg, v))
    case BoolLit(v) => VBool(v != "false")
    case UndefLit(_) => VNull
    case NullLit(_) => VNull
  }

  function EvalExpr(i: Interp, cfg: Config, s: Scene, e: Expr, fuel: nat): Result<Value>
    decreases fuel, 2, e, 0
  {
    match e
    case PathExpr(p) => EvalPath(i, s, p, false)
    case LitExpr(l) => Ok(EvalLiteral(cfg, l))
    case SubExpr(call) => EvalCall(i, cfg, s, call, true, None, None, "", fuel)
  }

  function EvalParams(i: Interp, cfg: Config, s: Scene, params: seq<Expr>, fuel: nat): (r: Result<seq<Value>>)
    ensures r.Ok? ==> |r.value| == |params|
    decreases fuel, 2, params, 0
  {
    if params == [] then Ok([])
    else
      var v :- EvalExpr(i, cfg, s, params[0], fuel);
      var vs :- EvalParams(i, cfg, s, params[1..], fuel);
      Ok([v] + vs)
  }

  function EvalValues(i: Interp, cfg: Config, s: Scene, pairs: seq<HashPair>, fuel: nat): (r: Result<seq<Value>>)
    ensures r.Ok? ==> |r.value| == |pairs|
    decreases fuel, 2, pairs, 0
  {
    if pairs == [] then Ok([])
    else
      var v :- EvalExpr(i, cfg, s, pairs[0].value, fuel);
      var vs :- EvalValues(i, cfg, s, pairs[1..], fuel);
      Ok([v] + vs)
  }

  /** The dictionary a hash literal denotes. */
  function Dictionary(i: Interp, pairs: seq<HashPair>, vs: seq<Value>): seq<Pair<Value>>
    requires |pairs| == |vs|
  {
    if pairs == [] then []
    else Put(Dictionary(i, pairs[1..], vs[1..]), KeyOf(i, pairs[0].key), vs[0])
  }

  function EvalHash(i: Interp, cfg: Config, s: Scene, hash: Hash, fuel: nat): Result<Value>
    decreases fuel, 2, hash, 1
  {
    match hash
    case NoHash => Ok(VHash([]))
    case Hash(pairs) =>
      var vs :- EvalValues(i, cfg, s, pairs, fuel);
      Ok(VHash(Dictionary(i, pairs, vs)))
  }

  /** Lets a callee act until it returns, rendering its blocks by evaluating them. */
  function EvalAct(i: Interp, cfg: Config, s: Scene, call: Call, program: Option<Program>, inverse: Option<Program>,
      texts: seq<string>, fuel: nat): Result<Value>
    decreases fuel, 0
  {
    match i.act(call, texts)
    case Return(v) => Ok(v)
    case Throw => Thrown
    case Render(inv, c, d, p, b) =>
      if fuel == 0 then OutOfFuel
      else
        var which := if inv then inverse else program;
        var text :-
          if which.None? then Ok("")
          else EvalProgram(i, cfg, which.value, EnterScene(i, s, Render(inv, c, d, p, b)), p, fuel - 1);
        EvalAct(i, cfg, s, call, program, inverse, texts + [text], fuel - 1)
  }

  function EnterScene(i: Interp, s: Scene, a: Action): Scene
    requires a.Render?
  {
    Scene(
      if s.contexts == [] || !i.same(Top(s.contexts, 0), a.context) then s.contexts + [a.context] else s.contexts,
      a.data.GetOr(s.data),
      s.frames,
      if a.block.Some? then s.blocks + [a.block.value] else s.blocks,
      s.naming)
  }

  function CallFor(kind: Kind, args: seq<Value>, hash: Value, program: Option<Program>, inverse: Option<Program>,
      s: Scene): Call {
    Call(kind, args, hash, program.Some?, inverse.Some?, View(s))
  }

  function EvalKnown(i: Interp, cfg: Config, s: Scene, name: string, args: Args,
      program: Option<Program>, inverse: Option<Program>, fuel: nat): Result<Value>
    decreases fuel, 2, args, 2
  {
    var vs :- EvalParams(i, cfg, s, args.params, fuel);
    var hash :- EvalHash(i, cfg, s, args.hash, fuel);
    if !i.hasHelper(name) then Thrown
    else EvalAct(i, cfg, s, CallFor(Kind.KnownHelper(name), vs, hash, program, inverse, s), program, inverse, [], fuel)
  }

  function EvalUnknown(i: Interp, cfg: Config, s: Scene, p: Path, args: Args,
      program: Option<Program>, inverse: Option<Program>, fuel: nat): Result<Value>
    decreases fuel, 2, args, 2
  {
    var vs :- EvalParams(i, cfg, s, args.params, fuel);
    var hash :- EvalHash(i, cfg, s, args.hash, fuel);
    var v :- EvalPath(i, s, p, true);
    EvalAct(i, cfg, s, CallFor(HelperCall(p.original, SimpleId(p), v), vs, hash, program, inverse, s), program, inverse,
      [], fuel)
  }

  /** A plain value; if it is a function, what it returns for the current context. */
  function EvalResolved(i: Interp, cfg: Config, s: Scene, p: Path, fuel: nat): Result<Value>
    decreases fuel, 1
  {
    var v :- EvalPath(i, s, p, true);
    if !i.callable(v) then Ok(v)
    else EvalAct(i, cfg, s, CallFor(LambdaCall(v), [ContextAt(View(s), 0)], VNull, None, None, s), None, None, [], fuel)
  }

  function EvalAmbiguous(i: Interp, cfg: Config, s: Scene, p: Path, text: string,
      program: Option<Program>, inverse: Option<Program>, fuel: nat): Result<Value>
    requires p.parts != []
    decreases fuel, 1
  {
    var v :- EvalPath(i, s, p, true);
    var isBlock := program.Some? || inverse.Some?;
    var t := if cfg.mustacheLambdas then Some(text) else None;
    var r :- EvalAct(i, cfg, s, CallFor(AmbiguousCall(p.parts[0], v, isBlock, t), [], VHash([]), program, inverse, s),
      program, inverse, [], fuel);
    Ok(OrLookedUp(i, cfg, r, v, isBlock, t))
  }

  function EvalCall(i: Interp, cfg: Config, s: Scene, call: CallExpr, sub: bool,
      program: Option<Program>, inverse: Option<Program>, text: string, fuel: nat): Result<Value>
    decreases fuel, 2, call, 1
  {
    var p := HeadPath(call.head);
    match Classify(cfg, ScopeOf(s.frames), call, sub)
    case Helper =>
      if IsKnownHelper(cfg, p) then EvalKnown(i, cfg, s, p.parts[0], call.args, program, inverse, fuel)
      else EvalUnknown(i, cfg, s, p, call.args, program, inverse, fuel)
    case Simple => EvalResolved(i, cfg, s, p, fuel)
    case Ambiguous => EvalAmbiguous(i, cfg, s, p, text, program, inverse, fuel)
  }

  function ScopeOf(frames: seq<Frame>): Scope {
    seq(|frames|, n requires 0 <= n < |frames| => frames[n].names)
  }

  // ---- statements

  function EvalBlock(i: Interp, cfg: Config, s: Scene, b: Stmt, fuel: nat): Result<string>
    requires b.Block? && !b.decorator
    decreases fuel, 3, 0
  {
    var v :- EvalCall(i, cfg, s, b.call, false, b.program, b.inverse, BlockText(b), fuel);
    EvalBlockTail(i, cfg, s, b, v, fuel)
  }

  /** A helper's result is the block's text; any other value goes through blockHelperMissing. */
  function EvalBlockTail(i: Interp, cfg: Config, s: Scene, b: Stmt, v: Value, fuel: nat): Result<string>
    requires b.Block?
    decreases fuel, 2, b, 5
  {
    var p := HeadPath(b.call.head);
    match Classify(cfg, ScopeOf(s.frames), b.call, false)
    case Helper => Ok(i.show(v, false))
    case Simple =>
      var r :- EvalMissing(i, cfg, s, Some(p.original), v, b, fuel);
      Ok(i.show(r, false))
    case Ambiguous =>
      var looked :- EvalPath(i, s, p, true);
      if HelperNote(i, cfg, p.parts[0], looked).Some? then Ok(i.show(v, false))
      else
        var r :- EvalMissing(i, cfg, s, None, v, b, fuel);
        Ok(i.show(r, false))
  }

  /** blockHelperMissing decides what a block over a plain value does. */
  function EvalMissing(i: Interp, cfg: Config, s: Scene, name: Option<string>, v: Value, b: Stmt,
      fuel: nat): Result<Value>
    requires b.Block?
    decreases fuel, 1
  {
    EvalAct(i, cfg, s, CallFor(BlockHelperMissing(name), [v], VHash([]), b.program, b.inverse, s), b.program, b.inverse,
      [], fuel)
  }

  function EvalPartialName(i: Interp, cfg: Config, s: Scene, name: PartialName, fuel: nat): Result<Option<Value>>
    decreases fuel, 3, 0
  {
    match name
    case Static(_) => Ok(None)
    case Dynamic(call) =>
      var n :- EvalCall(i, cfg, s, call, true, None, None, "", fuel);
      Ok(Some(n))
  }

  /** The context a partial is given: its parameter, or the current one; nothing if it has to be explicit. */
  function EvalPartialContext(i: Interp, cfg: Config, s: Scene, params: seq<Expr>, fuel: nat): Result<Value>
    decreases fuel, 3, 0
  {
    if params != [] then EvalExpr(i, cfg, s, params[0], fuel)
    else if cfg.explicitPartialContext then Ok(VNull)
    else Ok(ContextAt(View(s), 0))
  }

  function EvalPartial(i: Interp, cfg: Config, s: Scene, b: Stmt, fuel: nat): Result<string>
    requires b.Partial?
    decreases fuel, 4, 0
  {
    var name :- EvalPartialName(i, cfg, s, b.name, fuel);
    var context :- EvalPartialContext(i, cfg, s, b.args.params, fuel);
    var hash :- EvalHash(i, cfg, s, b.args.hash, fuel);
    EvalPartialCall(i, cfg, s, b, name, context, hash, fuel)
  }

  function EvalPartialCall(i: Interp, cfg: Config, s: Scene, b: Stmt, name: Option<Value>, context: Value, hash: Value,
      fuel: nat): Result<string>
    requires b.Partial?
    decreases fuel, 3, 0
  {
    var call := CallFor(PartialCall(name, PartialOperand(cfg, b.name)), [context], hash, b.program, None, s);
    var r :- EvalAct(i, cfg, s, call, b.program, None, [], fuel);
    Ok(if cfg.preventIndent then b.indent + i.indent(i.show(r, false), "") else i.indent(i.show(r, false), b.indent))
  }

  function EvalStmt(i: Interp, cfg: Config, s: Scene, stmt: Stmt, fuel: nat): Result<string>
    decreases fuel, 5, 0
  {
    match stmt
    case Content(v) => Ok(v)
    case Comment => Ok("")
    case Mustache(call, unescaped, decorator) =>
      if decorator then EvalDecorator(i, cfg, s, call.args, fuel)
      else
        var v :- EvalCall(i, cfg, s, call, false, None, None, "", fuel);
        Ok(i.show(v, !unescaped && !cfg.noEscape))
    case Block(call, _, _, decorator, _) =>
      if decorator then EvalDecorator(i, cfg, s, call.args, fuel) else EvalBlock(i, cfg, s, stmt, fuel)
    case RawBlock(_, _) => EvalBlock(i, cfg, s, AsBlock(stmt), fuel)
    case Partial(_, _, _, _) => EvalPartial(i, cfg, s, stmt, fuel)
  }

  /** Decorators are not supported at run time: their arguments are evaluated, then the run is aborted. */
  function EvalDecorator(i: Interp, cfg: Config, s: Scene, args: Args, fuel: nat): Result<string>
    decreases fuel, 3, 0
  {
    var _ :- EvalParams(i, cfg, s, args.params, fuel);
    var _ :- EvalHash(i, cfg, s, args.hash, fuel);
    Thrown
  }

  function EvalBody(i: Interp, cfg: Config, s: Scene, stmts: seq<Stmt>, fuel: nat): Result<string>
    decreases fuel, 6, |stmts|
  {
    if stmts == [] then Ok("")
    else
      var a :- EvalStmt(i, cfg, s, stmts[0], fuel);
      var b :- EvalBody(i, cfg, s, stmts[1..], fuel);
      Ok(a + b)
  }

  function EvalProgram(i: Interp, cfg: Config, p: Program, outer: Scene, params: Option<Value>,
      fuel: nat): Result<string>
    decreases fuel, 7, 0
  {
    EvalBody(i, cfg, outer.(frames := outer.frames + [Frame(Names(p.param1, p.param2), params)]), p.stmts, fuel)
  }
}

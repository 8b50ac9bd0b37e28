/**
 Where the two ways of finding block parameters agree: a template evaluated by slot gives what it means, if every
 block parameter it uses is looked up only where the slot counted to holds what the name is bound to.
 */
module Safety {
  import opened Options
  import opened Ast
  import opened CodeGen
  import opened Vm
  import opened Eval
  import opened Slots

  // ---- lookups that find what they mean

  predicate PathSound(scope: Scope, given: seq<bool>, p: Path) {
    var r := ResolvePath(scope, p);
    r.Some? ==> Finds(given, r.value.depth)
  }

  predicate ExprSound(cfg: Config, scope: Scope, given: seq<bool>, e: Expr)
    decreases e, 0
  {
    match e
    case PathExpr(p) => PathSound(scope, given, p)
    case LitExpr(_) => true
    case SubExpr(call) => CallSound(cfg, scope, given, call, true)
  }

  predicate ParamsSound(cfg: Config, scope: Scope, given: seq<bool>, params: seq<Expr>)
    decreases params, 0
  {
    params == [] || (ExprSound(cfg, scope, given, params[0]) && ParamsSound(cfg, scope, given, params[1..]))
  }

  predicate ValuesSound(cfg: Config, scope: Scope, given: seq<bool>, pairs: seq<HashPair>)
    decreases pairs, 0
  {
    pairs == [] || (ExprSound(cfg, scope, given, pairs[0].value) && ValuesSound(cfg, scope, given, pairs[1..]))
  }

  predicate HashSound(cfg: Config, scope: Scope, given: seq<bool>, hash: Hash)
    decreases hash, 0
  {
    hash.Hash? ==> ValuesSound(cfg, scope, given, hash.pairs)
  }

  predicate ArgsSound(cfg: Config, scope: Scope, given: seq<bool>, args: Args)
    decreases args, 0
  {
    ParamsSound(cfg, scope, given, args.params) && HashSound(cfg, scope, given, args.hash)
  }

  /** A known helper is not looked up; anything else that is called is. */
  predicate CallSound(cfg: Config, scope: Scope, given: seq<bool>, call: CallExpr, sub: bool)
    decreases call, 0
  {
    var p := HeadPath(call.head);
    if Classify(cfg, scope, call, sub).Helper? then
      ArgsSound(cfg, scope, given, call.args) && (IsKnownHelper(cfg, p) || PathSound(scope, given, p))
    else PathSound(scope, given, p)
  }

  /** The lookups of a statement itself, its programs left aside. */
  predicate StmtSound(cfg: Config, scope: Scope, given: seq<bool>, s: Stmt) {
    match s
    case Content(_) => true
    case Comment => true
    case Mustache(call, _, decorator) =>
      if decorator then ArgsSound(cfg, scope, given, call.args) else CallSound(cfg, scope, given, call, false)
    case Block(call, _, _, decorator, _) =>
      if decorator then ArgsSound(cfg, scope, given, call.args) else CallSound(cfg, scope, given, call, false)
    case RawBlock(call, _) => CallSound(cfg, scope, given, call, false)
    case Partial(name, args, _, _) =>
      (name.Dynamic? ==> CallSound(cfg, scope, given, name.call, true)) && ArgsSound(cfg, scope, given, args)
  }

  predicate BodySound(cfg: Config, scope: Scope, given: seq<bool>, stmts: seq<Stmt>) {
    stmts == [] || (StmtSound(cfg, scope, given, stmts[0]) && BodySound(cfg, scope, given, stmts[1..]))
  }

  // ---- who gives block parameters

  /** The calls the programs of a call may be handed to. */
  predicate MayCall(cfg: Config, scope: Scope, call: CallExpr, sub: bool, k: Kind) {
    var p := HeadPath(call.head);
    match Classify(cfg, scope, call, sub)
    case Helper =>
      if IsKnownHelper(cfg, p) then k == Kind.KnownHelper(p.parts[0])
      else k.HelperCall? && k.name == p.original
    case Simple => k == BlockHelperMissing(Some(p.original))
    case Ambiguous => (k.AmbiguousCall? && k.name == p.parts[0]) || k == BlockHelperMissing(None)
  }

  /** Whether a program may be rendered with block parameters, and whether without. */
  datatype Way = Way(give: bool, omit: bool)

  /** How the two programs of a call are rendered. */
  datatype Terms = Terms(program: Way, inverse: Way)

  const NEVER: Terms := Terms(Way(false, false), Way(false, false))
  const ANYHOW: Terms := Terms(Way(true, true), Way(true, true))

  predicate Allowed(w: Way, a: Action)
    requires a.Render?
  {
    if a.params.Some? then w.give else w.omit
  }

  /** The callee keeps to the terms whenever it renders. */
  ghost predicate Obliged(i: Interp, call: Call, terms: Terms) {
    forall texts :: i.act(call, texts).Render? ==>
      Allowed(if i.act(call, texts).inverse then terms.inverse else terms.program, i.act(call, texts))
  }

  /** The call comes with these programs and with as many sets of block parameters as were given. */
  predicate Meets(c: Call, program: Option<Program>, inverse: Option<Program>, given: seq<bool>) {
    c.hasProgram == program.Some? && c.hasInverse == inverse.Some? && |c.env.blockParams| == Count(given)
  }

  lemma CallMeets(kind: Kind, args: seq<Value>, hash: Value, program: Option<Program>, inverse: Option<Program>,
      s: Scene)
    ensures Meets(CallFor(kind, args, hash, program, inverse, s), program, inverse, GivenOf(s.frames))
  {
    CountParams(s.frames);
  }

  /** The calls a statement may hand its programs to. */
  predicate StmtCalls(cfg: Config, scope: Scope, given: seq<bool>, stmt: Stmt, c: Call) {
    match stmt
    case Block(call, program, inverse, _, _) => MayCall(cfg, scope, call, false, c.kind)
      && Meets(c, program, inverse, given)
    case RawBlock(call, _) => MayCall(cfg, scope, call, false, c.kind) && Meets(c, AsBlock(stmt).program, None, given)
    case Partial(name, _, program, _) =>
      c.kind.PartialCall? && c.kind.target == PartialOperand(cfg, name) && Meets(c, program, None, given)
    case _ => false
  }

  predicate RendersSo(i: Interp, c: Call, texts: seq<string>, inverse: bool, gives: bool) {
    i.act(c, texts).Render? && i.act(c, texts).inverse == inverse && i.act(c, texts).params.Some? == gives
  }

  /** Some callee of the statement may render its program, or its inverse, with block parameters, or without. */
  ghost predicate MayRender(i: Interp, cfg: Config, scope: Scope, given: seq<bool>, stmt: Stmt, inverse: bool,
      gives: bool) {
    exists c: Call, texts: seq<string> :: StmtCalls(cfg, scope, given, stmt, c)
      && RendersSo(i, c, texts, inverse, gives)
  }

  /** How the callees of a statement may render its programs, each of the two taken by itself. */
  ghost function StmtTerms(i: Interp, cfg: Config, scope: Scope, given: seq<bool>, stmt: Stmt): Terms {
    Terms(
      Way(MayRender(i, cfg, scope, given, stmt, false, true), MayRender(i, cfg, scope, given, stmt, false, false)),
      Way(MayRender(i, cfg, scope, given, stmt, true, true), MayRender(i, cfg, scope, given, stmt, true, false)))
  }

  lemma TermsOblige(i: Interp, cfg: Config, scope: Scope, given: seq<bool>, stmt: Stmt)
    ensures forall c: Call :: StmtCalls(cfg, scope, given, stmt, c) ==>
      Obliged(i, c, StmtTerms(i, cfg, scope, given, stmt))
  {
    forall c: Call, texts | StmtCalls(cfg, scope, given, stmt, c) && i.act(c, texts).Render?
      ensures var a := i.act(c, texts);
        MayRender(i, cfg, scope, given, stmt, a.inverse, a.params.Some?)
    {
      assert RendersSo(i, c, texts, i.act(c, texts).inverse, i.act(c, texts).params.Some?);
    }
  }

  ghost predicate SafeOption(i: Interp, cfg: Config, scope: Scope, given: seq<bool>, p: Option<Program>, w: Way)
    decreases p, 1
  {
    p.Some? ==>
      (w.give ==> SafeProgram(i, cfg, scope, given, p.value, true))
        && (w.omit ==> SafeProgram(i, cfg, scope, given, p.value, false))
  }

  ghost predicate SafeStmt(i: Interp, cfg: Config, scope: Scope, given: seq<bool>, s: Stmt)
    decreases s, 1
  {
    var terms := StmtTerms(i, cfg, scope, given, s);
    match s
    case Block(_, program, inverse, decorator, _) =>
      decorator || (SafeOption(i, cfg, scope, given, program, terms.program)
        && SafeOption(i, cfg, scope, given, inverse, terms.inverse))
    case Partial(_, _, program, _) => SafeOption(i, cfg, scope, given, program, terms.program)
    case _ => true
  }

  ghost predicate SafeBody(i: Interp, cfg: Config, scope: Scope, given: seq<bool>, stmts: seq<Stmt>)
    decreases stmts, 0
  {
    stmts == [] || (SafeStmt(i, cfg, scope, given, stmts[0]) && SafeBody(i, cfg, scope, given, stmts[1..]))
  }

  /**
   Rendered with parameters or without, as those who render it may choose, every block-parameter lookup in
   the program and in the programs inside it finds what it means.
   */
  ghost predicate SafeProgram(i: Interp, cfg: Config, scope: Scope, given: seq<bool>, p: Program, gets: bool)
    decreases p, 0
  {
    && BodySound(cfg, Inner(scope, p), given + [gets], p.stmts)
    && SafeBody(i, cfg, Inner(scope, p), given + [gets], p.stmts)
  }

  // ---- the same scene, by name

  function Named(s: Scene): Scene {
    s.(naming := ByName)
  }

  lemma SamePath(i: Interp, s: Scene, p: Path, strict: bool)
    requires s.naming.BySlot? && PathSound(ScopeOf(s.frames), GivenOf(s.frames), p)
    ensures EvalPath(i, s, p, strict) == EvalPath(i, Named(s), p, strict)
  {
    hide Slot, Bound, Resolve, ParamsOf, Finds, ScopeOf, GivenOf;
    if p.depth == 0 && !ScopedId(p) && p.parts != [] {
      ResolveFindsBinding(s.frames, p.parts[0]);
      assert Placed(s.frames, p.parts[0]).Some? <==> Bound(s.frames, p.parts[0]).Some?;
    }
  }

  /** With less fuel, the program evaluates to the same by slot and by name, rendered as the way allows. */
  ghost predicate Alike(i: Interp, cfg: Config, s: Scene, p: Option<Program>, w: Way, fuel: nat) {
    p.Some? ==>
      forall a: Action, f: nat :: f < fuel && a.Render? && Allowed(w, a) ==>
        EvalProgram(i, cfg, p.value, EnterScene(i, s, a), a.params, f)
          == EvalProgram(i, cfg, p.value, EnterScene(i, Named(s), a), a.params, f)
  }

  lemma {:induction false} SameAct(i: Interp, cfg: Config, s: Scene, call: Call, program: Option<Program>,
      inverse: Option<Program>, terms: Terms, texts: seq<string>, fuel: nat)
    requires Obliged(i, call, terms)
    requires Alike(i, cfg, s, program, terms.program, fuel) && Alike(i, cfg, s, inverse, terms.inverse, fuel)
    ensures EvalAct(i, cfg, s, call, program, inverse, texts, fuel)
      == EvalAct(i, cfg, Named(s), call, program, inverse, texts, fuel)
    decreases fuel
  {
    hide EvalProgram;
    var a := i.act(call, texts);
    if a.Render? && fuel > 0 {
      var which := if a.inverse then inverse else program;
      if which.None? {
        SameAct(i, cfg, s, call, program, inverse, terms, texts + [""], fuel - 1);
      } else {
        assert Allowed(if a.inverse then terms.inverse else terms.program, a);
        var text := EvalProgram(i, cfg, which.value, EnterScene(i, s, a), a.params, fuel - 1);
        assert text == EvalProgram(i, cfg, which.value, EnterScene(i, Named(s), a), a.params, fuel - 1);
        if text.Ok? {
          SameAct(i, cfg, s, call, program, inverse, terms, texts + [text.value], fuel - 1);
        }
      }
    }
  }

  /** The callees a call may reach act the same on its programs. */
  ghost predicate ActAlike(i: Interp, cfg: Config, s: Scene, c: Call, program: Option<Program>,
      inverse: Option<Program>, fuel: nat) {
    EvalAct(i, cfg, s, c, program, inverse, [], fuel) == EvalAct(i, cfg, Named(s), c, program, inverse, [], fuel)
  }

  ghost predicate CalleesAlike(i: Interp, cfg: Config, s: Scene, call: CallExpr, sub: bool, program: Option<Program>,
      inverse: Option<Program>, fuel: nat) {
    forall c: Call ::
      MayCall(cfg, ScopeOf(s.frames), call, sub, c.kind) && Meets(c, program, inverse, GivenOf(s.frames)) ==>
      ActAlike(i, cfg, s, c, program, inverse, fuel)
  }

  lemma NothingToRender(i: Interp, cfg: Config, s: Scene, c: Call, fuel: nat)
    ensures ActAlike(i, cfg, s, c, None, None, fuel)
  {
    SameAct(i, cfg, s, c, None, None, ANYHOW, [], fuel);
  }

  lemma {:induction false} SameExpr(i: Interp, cfg: Config, s: Scene, e: Expr, fuel: nat)
    requires s.naming.BySlot? && ExprSound(cfg, ScopeOf(s.frames), GivenOf(s.frames), e)
    ensures EvalExpr(i, cfg, s, e, fuel) == EvalExpr(i, cfg, Named(s), e, fuel)
    decreases e, 0
  {
    hide EvalPath, EvalCall, PathSound, CallSound;
    match e
    case PathExpr(p) => SamePath(i, s, p, false);
    case LitExpr(_) =>
    case SubExpr(call) =>
      forall c: Call ensures ActAlike(i, cfg, s, c, None, None, fuel) {
        NothingToRender(i, cfg, s, c, fuel);
      }
      SameCall(i, cfg, s, call, true, None, None, "", fuel);
  }

  lemma {:induction false} SameParams(i: Interp, cfg: Config, s: Scene, params: seq<Expr>, fuel: nat)
    requires s.naming.BySlot? && ParamsSound(cfg, ScopeOf(s.frames), GivenOf(s.frames), params)
    ensures EvalParams(i, cfg, s, params, fuel) == EvalParams(i, cfg, Named(s), params, fuel)
    decreases params, 0
  {
    hide EvalExpr, ExprSound;
    if params != [] {
      SameExpr(i, cfg, s, params[0], fuel);
      SameParams(i, cfg, s, params[1..], fuel);
    }
  }

  lemma {:induction false} SameValues(i: Interp, cfg: Config, s: Scene, pairs: seq<HashPair>, fuel: nat)
    requires s.naming.BySlot? && ValuesSound(cfg, ScopeOf(s.frames), GivenOf(s.frames), pairs)
    ensures EvalValues(i, cfg, s, pairs, fuel) == EvalValues(i, cfg, Named(s), pairs, fuel)
    decreases pairs, 0
  {
    hide EvalExpr, ExprSound;
    if pairs != [] {
      SameExpr(i, cfg, s, pairs[0].value, fuel);
      SameValues(i, cfg, s, pairs[1..], fuel);
    }
  }

  lemma {:induction false} SameHash(i: Interp, cfg: Config, s: Scene, hash: Hash, fuel: nat)
    requires s.naming.BySlot? && HashSound(cfg, ScopeOf(s.frames), GivenOf(s.frames), hash)
    ensures EvalHash(i, cfg, s, hash, fuel) == EvalHash(i, cfg, Named(s), hash, fuel)
    decreases hash, 0
  {
    hide EvalValues, ValuesSound, Dictionary;
    if hash.Hash? { SameValues(i, cfg, s, hash.pairs, fuel); }
  }

  lemma {:induction false} SameArgs(i: Interp, cfg: Config, s: Scene, args: Args, fuel: nat)
    requires s.naming.BySlot? && ArgsSound(cfg, ScopeOf(s.frames), GivenOf(s.frames), args)
    ensures EvalParams(i, cfg, s, args.params, fuel) == EvalParams(i, cfg, Named(s), args.params, fuel)
    ensures EvalHash(i, cfg, s, args.hash, fuel) == EvalHash(i, cfg, Named(s), args.hash, fuel)
    decreases args, 0
  {
    hide EvalParams, EvalHash, ParamsSound, HashSound;
    SameParams(i, cfg, s, args.params, fuel);
    SameHash(i, cfg, s, args.hash, fuel);
  }

  lemma {:induction false} SameCall(i: Interp, cfg: Config, s: Scene, call: CallExpr, sub: bool,
      program: Option<Program>, inverse: Option<Program>, text: string, fuel: nat)
    requires s.naming.BySlot? && CallSound(cfg, ScopeOf(s.frames), GivenOf(s.frames), call, sub)
    requires CalleesAlike(i, cfg, s, call, sub, program, inverse, fuel)
    ensures EvalCall(i, cfg, s, call, sub, program, inverse, text, fuel)
      == EvalCall(i, cfg, Named(s), call, sub, program, inverse, text, fuel)
    decreases call, 0
  {
    hide EvalParams, EvalHash, EvalPath, EvalAct, PathSound, ArgsSound, Classify, HeadPath, GivenOf, ScopeOf, ParamsOf;
    hide IsKnownHelper, SimpleId;
    var p := HeadPath(call.head);
    match Classify(cfg, ScopeOf(s.frames), call, sub)
    case Helper =>
      SameArgs(i, cfg, s, call.args, fuel);
      if IsKnownHelper(cfg, p) {
        SameKnown(i, cfg, s, call, sub, program, inverse, fuel);
      } else {
        SamePath(i, s, p, true);
        SameUnknown(i, cfg, s, call, sub, program, inverse, fuel);
      }
    case Simple =>
      SamePath(i, s, p, true);
      SameResolved(i, cfg, s, p, fuel);
    case Ambiguous =>
      SamePath(i, s, p, true);
      SameAmbiguous(i, cfg, s, call, sub, text, program, inverse, fuel);
  }

  lemma SameKnown(i: Interp, cfg: Config, s: Scene, call: CallExpr, sub: bool, program: Option<Program>,
      inverse: Option<Program>, fuel: nat)
    requires Classify(cfg, ScopeOf(s.frames), call, sub).Helper? && IsKnownHelper(cfg, HeadPath(call.head))
    requires CalleesAlike(i, cfg, s, call, sub, program, inverse, fuel)
    requires EvalParams(i, cfg, s, call.args.params, fuel) == EvalParams(i, cfg, Named(s), call.args.params, fuel)
    requires EvalHash(i, cfg, s, call.args.hash, fuel) == EvalHash(i, cfg, Named(s), call.args.hash, fuel)
    ensures var name := HeadPath(call.head).parts[0];
      EvalKnown(i, cfg, s, name, call.args, program, inverse, fuel)
        == EvalKnown(i, cfg, Named(s), name, call.args, program, inverse, fuel)
  {
    hide EvalParams, EvalHash, EvalAct, Classify, HeadPath, GivenOf, ScopeOf, ParamsOf;
    var name := HeadPath(call.head).parts[0];
    var vs, h := EvalParams(i, cfg, s, call.args.params, fuel), EvalHash(i, cfg, s, call.args.hash, fuel);
    if vs.Ok? && h.Ok? {
      var c := CallFor(Kind.KnownHelper(name), vs.value, h.value, program, inverse, s);
      CallMeets(c.kind, vs.value, h.value, program, inverse, s);
      assert ActAlike(i, cfg, s, c, program, inverse, fuel);
    }
  }

  lemma SameUnknown(i: Interp, cfg: Config, s: Scene, call: CallExpr, sub: bool, program: Option<Program>,
      inverse: Option<Program>, fuel: nat)
    requires Classify(cfg, ScopeOf(s.frames), call, sub).Helper? && !IsKnownHelper(cfg, HeadPath(call.head))
    requires CalleesAlike(i, cfg, s, call, sub, program, inverse, fuel)
    requires EvalParams(i, cfg, s, call.args.params, fuel) == EvalParams(i, cfg, Named(s), call.args.params, fuel)
    requires EvalHash(i, cfg, s, call.args.hash, fuel) == EvalHash(i, cfg, Named(s), call.args.hash, fuel)
    requires EvalPath(i, s, HeadPath(call.head), true) == EvalPath(i, Named(s), HeadPath(call.head), true)
    ensures var p := HeadPath(call.head);
      EvalUnknown(i, cfg, s, p, call.args, program, inverse, fuel)
        == EvalUnknown(i, cfg, Named(s), p, call.args, program, inverse, fuel)
  {
    hide EvalParams, EvalHash, EvalAct, EvalPath, Classify, HeadPath, GivenOf, ScopeOf, ParamsOf;
    var p := HeadPath(call.head);
    var vs, h := EvalParams(i, cfg, s, call.args.params, fuel), EvalHash(i, cfg, s, call.args.hash, fuel);
    var v := EvalPath(i, s, p, true);
    if vs.Ok? && h.Ok? && v.Ok? {
      var c := CallFor(HelperCall(p.original, SimpleId(p), v.value), vs.value, h.value, program, inverse, s);
      CallMeets(c.kind, vs.value, h.value, program, inverse, s);
      assert ActAlike(i, cfg, s, c, program, inverse, fuel);
    }
  }

  lemma SameResolved(i: Interp, cfg: Config, s: Scene, p: Path, fuel: nat)
    requires EvalPath(i, s, p, true) == EvalPath(i, Named(s), p, true)
    ensures EvalResolved(i, cfg, s, p, fuel) == EvalResolved(i, cfg, Named(s), p, fuel)
  {
    hide EvalPath, EvalAct, ParamsOf;
    var v := EvalPath(i, s, p, true);
    if v.Ok? {
      var c := CallFor(LambdaCall(v.value), [ContextAt(View(s), 0)], VNull, None, None, s);
      NothingToRender(i, cfg, s, c, fuel);
    }
  }

  lemma SameAmbiguous(i: Interp, cfg: Config, s: Scene, call: CallExpr, sub: bool, text: string,
      program: Option<Program>, inverse: Option<Program>, fuel: nat)
    requires Classify(cfg, ScopeOf(s.frames), call, sub).Ambiguous?
    requires CalleesAlike(i, cfg, s, call, sub, program, inverse, fuel)
    requires EvalPath(i, s, HeadPath(call.head), true) == EvalPath(i, Named(s), HeadPath(call.head), true)
    ensures var p := HeadPath(call.head);
      EvalAmbiguous(i, cfg, s, p, text, program, inverse, fuel)
        == EvalAmbiguous(i, cfg, Named(s), p, text, program, inverse, fuel)
  {
    hide EvalAct, EvalPath, HeadPath, GivenOf, ScopeOf, ParamsOf, OrLookedUp;
    var p := HeadPath(call.head);
    var v := EvalPath(i, s, p, true);
    if v.Ok? {
      var t := if cfg.mustacheLambdas then Some(text) else None;
      var kind := AmbiguousCall(p.parts[0], v.value, program.Some? || inverse.Some?, t);
      CallMeets(kind, [], VHash([]), program, inverse, s);
      assert ActAlike(i, cfg, s, CallFor(kind, [], VHash([]), program, inverse, s), program, inverse, fuel);
    }
  }

  // ---- statements

  lemma SameBlock(i: Interp, cfg: Config, s: Scene, b: Stmt, fuel: nat)
    requires s.naming.BySlot? && b.Block? && !b.decorator
    requires CallSound(cfg, ScopeOf(s.frames), GivenOf(s.frames), b.call, false)
    requires CalleesAlike(i, cfg, s, b.call, false, b.program, b.inverse, fuel)
    ensures EvalBlock(i, cfg, s, b, fuel) == EvalBlock(i, cfg, Named(s), b, fuel)
  {
    hide EvalCall, EvalBlockTail, CallSound, GivenOf, ScopeOf;
    SameCall(i, cfg, s, b.call, false, b.program, b.inverse, BlockText(b), fuel);
    var v := EvalCall(i, cfg, s, b.call, false, b.program, b.inverse, BlockText(b), fuel);
    if v.Ok? { SameBlockTail(i, cfg, s, b, v.value, fuel); }
  }

  lemma SameBlockTail(i: Interp, cfg: Config, s: Scene, b: Stmt, v: Value, fuel: nat)
    requires s.naming.BySlot? && b.Block?
    requires CallSound(cfg, ScopeOf(s.frames), GivenOf(s.frames), b.call, false)
    requires CalleesAlike(i, cfg, s, b.call, false, b.program, b.inverse, fuel)
    ensures EvalBlockTail(i, cfg, s, b, v, fuel) == EvalBlockTail(i, cfg, Named(s), b, v, fuel)
  {
    hide EvalPath, EvalAct, PathSound, ArgsSound, Classify, HeadPath, GivenOf, ScopeOf, ParamsOf, HelperNote;
    var p := HeadPath(b.call.head);
    match Classify(cfg, ScopeOf(s.frames), b.call, false)
    case Helper =>
    case Simple =>
      CallMeets(BlockHelperMissing(Some(p.original)), [v], VHash([]), b.program, b.inverse, s);
      assert ActAlike(i, cfg, s, CallFor(BlockHelperMissing(Some(p.original)), [v], VHash([]), b.program, b.inverse, s),
        b.program, b.inverse, fuel);
    case Ambiguous =>
      SamePath(i, s, p, true);
      CallMeets(BlockHelperMissing(None), [v], VHash([]), b.program, b.inverse, s);
      assert ActAlike(i, cfg, s, CallFor(BlockHelperMissing(None), [v], VHash([]), b.program, b.inverse, s),
        b.program, b.inverse, fuel);
  }

  lemma SamePartial(i: Interp, cfg: Config, s: Scene, b: Stmt, fuel: nat)
    requires s.naming.BySlot? && b.Partial? && StmtSound(cfg, ScopeOf(s.frames), GivenOf(s.frames), b)
    requires forall c: Call ::
      StmtCalls(cfg, ScopeOf(s.frames), GivenOf(s.frames), b, c) ==> ActAlike(i, cfg, s, c, b.program, None, fuel)
    ensures EvalPartial(i, cfg, s, b, fuel) == EvalPartial(i, cfg, Named(s), b, fuel)
  {
    hide EvalPartialCall, EvalHash, EvalCall, EvalExpr, CallSound, ExprSound, HashSound, GivenOf, ScopeOf, ParamsOf;
    if b.name.Dynamic? {
      forall c: Call ensures ActAlike(i, cfg, s, c, None, None, fuel) {
        NothingToRender(i, cfg, s, c, fuel);
      }
      SameCall(i, cfg, s, b.name.call, true, None, None, "", fuel);
    }
    if b.args.params != [] {
      assert ParamsSound(cfg, ScopeOf(s.frames), GivenOf(s.frames), b.args.params);
      SameExpr(i, cfg, s, b.args.params[0], fuel);
    }
    SameHash(i, cfg, s, b.args.hash, fuel);
    var n, c := EvalPartialName(i, cfg, s, b.name, fuel), EvalPartialContext(i, cfg, s, b.args.params, fuel);
    var h := EvalHash(i, cfg, s, b.args.hash, fuel);
    if n.Ok? && c.Ok? && h.Ok? { SamePartialCall(i, cfg, s, b, n.value, c.value, h.value, fuel); }
  }

  lemma SamePartialCall(i: Interp, cfg: Config, s: Scene, b: Stmt, name: Option<Value>, context: Value, hash: Value,
      fuel: nat)
    requires b.Partial?
    requires forall c: Call ::
      StmtCalls(cfg, ScopeOf(s.frames), GivenOf(s.frames), b, c) ==> ActAlike(i, cfg, s, c, b.program, None, fuel)
    ensures EvalPartialCall(i, cfg, s, b, name, context, hash, fuel)
      == EvalPartialCall(i, cfg, Named(s), b, name, context, hash, fuel)
  {
    hide EvalAct, PartialOperand, GivenOf, ParamsOf;
    var kind := PartialCall(name, PartialOperand(cfg, b.name));
    CallMeets(kind, [context], hash, b.program, None, s);
    assert ActAlike(i, cfg, s, CallFor(kind, [context], hash, b.program, None, s), b.program, None, fuel);
  }

  /** The programs of a statement evaluate alike, however its callees render them. */
  ghost predicate ProgramsAlike(i: Interp, cfg: Config, s: Scene, stmt: Stmt, fuel: nat) {
    var terms := StmtTerms(i, cfg, ScopeOf(s.frames), GivenOf(s.frames), stmt);
    && (stmt.Block? && !stmt.decorator ==>
          Alike(i, cfg, s, stmt.program, terms.program, fuel) && Alike(i, cfg, s, stmt.inverse, terms.inverse, fuel))
    && (stmt.RawBlock? ==> Alike(i, cfg, s, AsBlock(stmt).program, terms.program, fuel))
    && (stmt.Partial? ==> Alike(i, cfg, s, stmt.program, terms.program, fuel))
  }

  lemma SameStmt(i: Interp, cfg: Config, s: Scene, stmt: Stmt, fuel: nat)
    requires s.naming.BySlot? && StmtSound(cfg, ScopeOf(s.frames), GivenOf(s.frames), stmt)
    requires ProgramsAlike(i, cfg, s, stmt, fuel)
    ensures EvalStmt(i, cfg, s, stmt, fuel) == EvalStmt(i, cfg, Named(s), stmt, fuel)
  {
    hide EvalBlock, EvalPartial, EvalCall, EvalParams, EvalHash, EvalAct, StmtTerms, Alike, Obliged, GivenOf, ScopeOf;
    hide MayCall, CallSound, ArgsSound, Meets;
    match stmt
    case Content(_) =>
    case Comment =>
    case Mustache(call, _, decorator) =>
      if decorator {
        SameArgs(i, cfg, s, call.args, fuel);
      } else {
        forall c: Call ensures ActAlike(i, cfg, s, c, None, None, fuel) {
          NothingToRender(i, cfg, s, c, fuel);
        }
        SameCall(i, cfg, s, call, false, None, None, "", fuel);
      }
    case Block(call, _, _, decorator, _) =>
      if decorator {
        SameArgs(i, cfg, s, call.args, fuel);
      } else {
        StmtActs(i, cfg, s, stmt, fuel);
        BlockCallees(i, cfg, s, stmt, stmt, fuel);
        SameBlock(i, cfg, s, stmt, fuel);
      }
    case RawBlock(_, _) =>
      StmtActs(i, cfg, s, stmt, fuel);
      BlockCallees(i, cfg, s, stmt, AsBlock(stmt), fuel);
      SameBlock(i, cfg, s, AsBlock(stmt), fuel);
    case Partial(_, _, _, _) =>
      StmtActs(i, cfg, s, stmt, fuel);
      SamePartial(i, cfg, s, stmt, fuel);
  }

  lemma BlockCallees(i: Interp, cfg: Config, s: Scene, stmt: Stmt, b: Stmt, fuel: nat)
    requires stmt.Block? || stmt.RawBlock?
    requires b == if stmt.Block? then stmt else AsBlock(stmt)
    requires forall c: Call :: StmtCalls(cfg, ScopeOf(s.frames), GivenOf(s.frames), stmt, c) ==>
      ActAlike(i, cfg, s, c, ProgramOf(stmt), InverseOf(stmt), fuel)
    ensures CalleesAlike(i, cfg, s, b.call, false, b.program, b.inverse, fuel)
  {
    hide MayCall, Meets, GivenOf, ScopeOf, ActAlike;
    forall c: Call | MayCall(cfg, ScopeOf(s.frames), b.call, false, c.kind)
      && Meets(c, b.program, b.inverse, GivenOf(s.frames))
      ensures ActAlike(i, cfg, s, c, b.program, b.inverse, fuel)
    {
      assert StmtCalls(cfg, ScopeOf(s.frames), GivenOf(s.frames), stmt, c);
    }
  }

  function InverseOf(stmt: Stmt): Option<Program> {
    if stmt.Block? then stmt.inverse else None
  }

  function ProgramOf(stmt: Stmt): Option<Program> {
    match stmt
    case Block(_, program, _, _, _) => program
    case RawBlock(_, _) => AsBlock(stmt).program
    case Partial(_, _, program, _) => program
    case _ => None
  }

  /** The calls a statement may make act alike on its programs. */
  lemma StmtActs(i: Interp, cfg: Config, s: Scene, stmt: Stmt, fuel: nat)
    requires ProgramsAlike(i, cfg, s, stmt, fuel) && !(stmt.Block? && stmt.decorator)
    ensures forall c: Call :: StmtCalls(cfg, ScopeOf(s.frames), GivenOf(s.frames), stmt, c) ==>
      ActAlike(i, cfg, s, c, ProgramOf(stmt), InverseOf(stmt), fuel)
  {
    hide StmtTerms, Obliged, Alike, MayCall, Meets, GivenOf, ScopeOf;
    var terms := StmtTerms(i, cfg, ScopeOf(s.frames), GivenOf(s.frames), stmt);
    TermsOblige(i, cfg, ScopeOf(s.frames), GivenOf(s.frames), stmt);
    assert Alike(i, cfg, s, None, terms.inverse, fuel) by { NoProgramAlike(i, cfg, s, terms.inverse, fuel); }
    forall c: Call | StmtCalls(cfg, ScopeOf(s.frames), GivenOf(s.frames), stmt, c)
      ensures ActAlike(i, cfg, s, c, ProgramOf(stmt), InverseOf(stmt), fuel)
    {
      SameAct(i, cfg, s, c, ProgramOf(stmt), InverseOf(stmt), terms, [], fuel);
    }
  }

  lemma NoProgramAlike(i: Interp, cfg: Config, s: Scene, w: Way, fuel: nat)
    ensures Alike(i, cfg, s, None, w, fuel)
  {
  }

  lemma {:induction false} SameBody(i: Interp, cfg: Config, s: Scene, stmts: seq<Stmt>, fuel: nat)
    requires s.naming.BySlot? && BodySound(cfg, ScopeOf(s.frames), GivenOf(s.frames), stmts)
    requires SafeBody(i, cfg, ScopeOf(s.frames), GivenOf(s.frames), stmts)
    ensures EvalBody(i, cfg, s, stmts, fuel) == EvalBody(i, cfg, Named(s), stmts, fuel)
    decreases fuel, 2, |stmts|
  {
    hide EvalStmt, StmtSound, SafeStmt, ProgramsAlike, GivenOf, ScopeOf;
    if stmts != [] {
      SafePrograms(i, cfg, s, stmts[0], fuel);
      SameStmt(i, cfg, s, stmts[0], fuel);
      SameBody(i, cfg, s, stmts[1..], fuel);
    }
  }

  lemma {:induction false} SafePrograms(i: Interp, cfg: Config, s: Scene, stmt: Stmt, fuel: nat)
    requires s.naming.BySlot? && SafeStmt(i, cfg, ScopeOf(s.frames), GivenOf(s.frames), stmt)
    ensures ProgramsAlike(i, cfg, s, stmt, fuel)
    decreases fuel, 1
  {
    hide StmtTerms, Alike, SafeOption, GivenOf, ScopeOf;
    var terms := StmtTerms(i, cfg, ScopeOf(s.frames), GivenOf(s.frames), stmt);
    if stmt.Block? && !stmt.decorator {
      SafeAlike(i, cfg, s, stmt.program, terms.program, fuel);
      SafeAlike(i, cfg, s, stmt.inverse, terms.inverse, fuel);
    } else if stmt.Partial? {
      SafeAlike(i, cfg, s, stmt.program, terms.program, fuel);
    } else if stmt.RawBlock? {
      TextAlike(i, cfg, s, stmt, terms.program, fuel);
    }
  }

  /** The content of a raw block looks nothing up. */
  lemma TextAlike(i: Interp, cfg: Config, s: Scene, stmt: Stmt, w: Way, fuel: nat)
    requires stmt.RawBlock?
    ensures Alike(i, cfg, s, AsBlock(stmt).program, w, fuel)
  {
    var p := AsBlock(stmt).program.value;
    forall a: Action, f: nat | f < fuel && a.Render? && Allowed(w, a)
      ensures EvalProgram(i, cfg, p, EnterScene(i, s, a), a.params, f)
        == EvalProgram(i, cfg, p, EnterScene(i, Named(s), a), a.params, f)
    {
      OnlyText(i, cfg, EnterScene(i, s, a), stmt.content, a.params, f);
      OnlyText(i, cfg, EnterScene(i, Named(s), a), stmt.content, a.params, f);
    }
  }

  lemma OnlyText(i: Interp, cfg: Config, s: Scene, content: string, params: Option<Value>, fuel: nat)
    ensures EvalProgram(i, cfg, Program([Content(content)], None, None), s, params, fuel) == Ok(content)
  {
    var stmts := [Content(content)];
    var inner := s.(frames := s.frames + [Frame(Names(None, None), params)]);
    assert stmts[1..] == [];
    assert EvalBody(i, cfg, inner, stmts[1..], fuel) == Ok("");
    assert EvalStmt(i, cfg, inner, stmts[0], fuel) == Ok(content);
    assert EvalBody(i, cfg, inner, stmts, fuel) == Ok(content + "");
    assert content + "" == content;
  }

  lemma {:induction false} SafeAlike(i: Interp, cfg: Config, s: Scene, p: Option<Program>, w: Way, fuel: nat)
    requires s.naming.BySlot? && SafeOption(i, cfg, ScopeOf(s.frames), GivenOf(s.frames), p, w)
    ensures Alike(i, cfg, s, p, w, fuel)
    decreases fuel, 0
  {
    hide EvalProgram, SafeProgram, GivenOf, ScopeOf;
    if p.Some? {
      forall a: Action, f: nat | f < fuel && a.Render? && Allowed(w, a)
        ensures EvalProgram(i, cfg, p.value, EnterScene(i, s, a), a.params, f)
          == EvalProgram(i, cfg, p.value, EnterScene(i, Named(s), a), a.params, f)
      {
        SameProgram(i, cfg, EnterScene(i, s, a), p.value, a.params, f);
      }
    }
  }

  /** A safe program evaluates by slot to what it means. */
  lemma {:induction false} SameProgram(i: Interp, cfg: Config, s: Scene, p: Program, params: Option<Value>, fuel: nat)
    requires s.naming.BySlot? && SafeProgram(i, cfg, ScopeOf(s.frames), GivenOf(s.frames), p, params.Some?)
    ensures EvalProgram(i, cfg, p, s, params, fuel) == EvalProgram(i, cfg, p, Named(s), params, fuel)
    decreases fuel, 3
  {
    hide EvalBody, BodySound, SafeBody;
    var frame := Frame(Names(p.param1, p.param2), params);
    var inner := s.(frames := s.frames + [frame]);
    assert ScopeOf(inner.frames) == Inner(ScopeOf(s.frames), p);
    assert GivenOf(inner.frames) == GivenOf(s.frames) + [params.Some?];
    SameBody(i, cfg, inner, p.stmts, fuel);
  }
}

/**
 Which callee a call is compiled to ask for, from its name, its arguments, the enclosing programs and the options
 alone, and what the run asks for then (handlebars_compiler_classify_sexpr in src/handlebars_compiler.c).
 */
module Dispatch {
  import opened Options
  import opened Ast
  import opened CodeGen
  import opened Vm
  import opened Eval
  import opened Meaning
  import opened Scoping
  import opened KnownBlocks

  // ---- the question from the text alone

  predicate WordChar(c: char) {
    '0' <= c <= '9' || 'A' <= c <= 'Z' || 'a' <= c <= 'z' || c == '_'
  }

  /** "this" stands at n. */
  predicate ThisAt(s: string, n: nat) {
    n + 4 <= |s| && s[n..n + 4] == "this"
  }

  /** The text begins with a dot, or the first "this" in it is not followed by a word character. */
  ghost predicate ScopedText(s: string) {
    || (s != "" && s[0] == '.')
    || exists n: nat ::
      ThisAt(s, n) && (forall m: nat :: m < n ==> !ThisAt(s, m)) && (n + 4 == |s| || !WordChar(s[n + 4]))
  }

  lemma {:induction false} AfterThisIs(s: string)
    ensures match AfterThis(s)
      case None => forall n: nat :: !ThisAt(s, n)
      case Some(c) => exists n: nat ::
        ThisAt(s, n) && (forall m: nat :: m < n ==> !ThisAt(s, m)) && c == if n + 4 == |s| then 0 else s[n + 4] as int
  {
    if |s| >= 4 {
      assert s[0..4] == s[..4];
      if s[..4] == "this" {
        assert ThisAt(s, 0);
      } else {
        var t := s[1..];
        AfterThisIs(t);
        forall n: nat | 0 < n && n + 4 <= |s| ensures ThisAt(s, n) <==> ThisAt(t, n - 1) {
          assert s[n..n + 4] == t[n - 1..n - 1 + 4];
        }
        assert !ThisAt(s, 0);
        if AfterThis(t).Some? {
          var n: nat :| ThisAt(t, n) && (forall m: nat :: m < n ==> !ThisAt(t, m))
            && AfterThis(t).value == if n + 4 == |t| then 0 else t[n + 4] as int;
          assert ThisAt(s, n + 1);
          forall m: nat | m < n + 1 ensures !ThisAt(s, m) {
            if m > 0 { assert !ThisAt(t, m - 1); }
          }
        } else {
          forall n: nat ensures !ThisAt(s, n) {
            if n > 0 { assert !ThisAt(t, n - 1); }
          }
        }
      }
    }
  }

  lemma ScopedExactly(p: Path)
    ensures ScopedId(p) <==> ScopedText(p.original)
  {
    var s := p.original;
    AfterThisIs(s);
    if |s| == 4 {
      assert s[0..4] == s;
      assert s == "this" ==> ThisAt(s, 0);
    }
    if AfterThis(s).Some? {
      var n: nat :| ThisAt(s, n) && (forall m: nat :: m < n ==> !ThisAt(s, m))
        && AfterThis(s).value == if n + 4 == |s| then 0 else s[n + 4] as int;
      forall k: nat | ThisAt(s, k) && forall m: nat :: m < k ==> !ThisAt(s, m) ensures k == n {
      }
    }
  }

  ghost predicate Declared(scope: Scope, name: string) {
    exists n :: 0 <= n < |scope| && Declares(scope[n], name)
  }

  /** One name, in the current context, that no dot or this in front of it binds. */
  ghost predicate Word(p: Path) {
    |p.parts| == 1 && p.depth == 0 && !ScopedText(p.original)
  }

  /** A block parameter in scope. */
  ghost predicate Parameter(scope: Scope, p: Path) {
    Word(p) && Declared(scope, p.parts[0])
  }

  /** The head of a call: a literal is a name like any other. */
  predicate Heads(h: Head, p: Path) {
    h == Name(p) || (h.Constant? && p == Path([h.lit.val], h.lit.val, 0, false))
  }

  predicate Known(cfg: Config, p: Path) {
    p.parts != [] && cfg.known(p.parts[0])
  }

  predicate NoArguments(call: CallExpr) {
    call.args == Args([], NoHash)
  }

  lemma ClassIs(cfg: Config, scope: Scope, call: CallExpr, sub: bool, p: Path)
    requires Heads(call.head, p)
    ensures HeadPath(call.head) == p && (IsKnownHelper(cfg, p) <==> Known(cfg, p)) && (SimpleId(p) <==> Word(p))
    ensures Classify(cfg, scope, call, sub) ==
      if Parameter(scope, p) then Simple
      else if sub || !NoArguments(call) || (Word(p) && Known(cfg, p)) then Helper
      else if Word(p) && !cfg.knownHelpersOnly then Ambiguous
      else Simple
  {
    ScopedExactly(p);
    if Word(p) { ResolveIsLexical(scope, p.parts[0]); }
  }

  // ---- what is emitted

  function Last(ops: seq<Op>): Op
    requires ops != []
  {
    ops[|ops| - 1]
  }

  /** A call asks for whatever has the name, as an ambiguous name, exactly if it is a bare unknown word. */
  ghost predicate AsksByName(cfg: Config, scope: Scope, call: CallExpr, sub: bool, p: Path) {
    Word(p) && !Declared(scope, p.parts[0]) && NoArguments(call) && !sub && !Known(cfg, p) && !cfg.knownHelpersOnly
  }

  /** Opcodes no argument of a call is compiled to. */
  datatype Mark = NameAsked | PartialAsked | DecoratorAsked

  predicate Bears(op: Op, k: Mark) {
    match k
    case NameAsked => op.InvokeAmbiguous?
    case PartialAsked => op.InvokePartial?
    case DecoratorAsked => op.RegisterDecorator?
  }

  predicate Any(ops: seq<Op>, k: Mark) {
    exists n :: 0 <= n < |ops| && Bears(ops[n], k)
  }

  lemma AnyConcat(a: seq<Op>, b: seq<Op>, k: Mark)
    ensures Any(a + b, k) <==> Any(a, k) || Any(b, k)
  {
    var ops := a + b;
    assert forall n :: 0 <= n < |a| ==> ops[n] == a[n];
    assert forall n :: 0 <= n < |b| ==> ops[|a| + n] == b[n];
  }

  lemma {:induction false} NoneInExpr(cfg: Config, scope: Scope, e: Expr, k: Mark)
    ensures !Any(ExprOps(cfg, scope, e), k)
    decreases e, 0
  {
    if e.SubExpr? { NoneInCall(cfg, scope, e.call, k); }
  }

  lemma {:induction false} NoneInParams(cfg: Config, scope: Scope, params: seq<Expr>, k: Mark)
    ensures !Any(ParamsOps(cfg, scope, params), k)
    decreases params, 0
  {
    if params != [] {
      NoneInExpr(cfg, scope, params[0], k);
      NoneInParams(cfg, scope, params[1..], k);
      AnyConcat(ExprOps(cfg, scope, params[0]), ParamsOps(cfg, scope, params[1..]), k);
    }
  }

  lemma {:induction false} NoneInValues(cfg: Config, scope: Scope, pairs: seq<HashPair>, k: Mark)
    ensures !Any(ValuesOps(cfg, scope, pairs), k)
    decreases pairs, 0
  {
    if pairs != [] {
      NoneInExpr(cfg, scope, pairs[0].value, k);
      NoneInValues(cfg, scope, pairs[1..], k);
      AnyConcat(ExprOps(cfg, scope, pairs[0].value), ValuesOps(cfg, scope, pairs[1..]), k);
    }
  }

  lemma {:induction false} NoneInAssign(pairs: seq<HashPair>, k: Mark)
    ensures !Any(AssignOps(pairs), k)
  {
    if pairs != [] {
      NoneInAssign(pairs[1..], k);
      AnyConcat(AssignOps(pairs[1..]), [AssignToHash(pairs[0].key)], k);
    }
  }

  lemma {:induction false} NoneInSetup(cfg: Config, scope: Scope, args: Args, g: Option<nat>, ig: Option<nat>,
      omit: bool, k: Mark)
    ensures !Any(SetupOps(cfg, scope, args, g, ig, omit), k)
    decreases args, 0
  {
    hide ParamsOps, ValuesOps, AssignOps;
    assert !Any(PairOps(g, ig), k) && !Any([EmptyHash(omit)], k);
    var params, hash := ParamsOps(cfg, scope, args.params), HashArgOps(cfg, scope, args.hash, omit);
    NoneInParams(cfg, scope, args.params, k);
    if args.hash.Hash? {
      var values, assign := ValuesOps(cfg, scope, args.hash.pairs), AssignOps(args.hash.pairs);
      NoneInValues(cfg, scope, args.hash.pairs, k);
      NoneInAssign(args.hash.pairs, k);
      AnyConcat([PushHash], values, k);
      AnyConcat([PushHash] + values, assign, k);
      AnyConcat([PushHash] + values + assign, [PopHash], k);
      assert hash == HashOps(cfg, scope, args.hash.pairs);
    } else {
      assert hash == [EmptyHash(omit)];
    }
    assert !Any(hash, k);
    AnyConcat(params, PairOps(g, ig), k);
    AnyConcat(params + PairOps(g, ig), hash, k);
  }

  lemma {:induction false} NoneInCall(cfg: Config, scope: Scope, call: CallExpr, k: Mark)
    ensures !Any(CallOps(cfg, scope, call, true, None, None, ""), k)
    decreases call, 1
  {
    hide SetupOps;
    ClassIs(cfg, scope, call, true, HeadPath(call.head));
    NoneInHelper(cfg, scope, call, None, None, k);
  }

  lemma {:induction false} NoneInHelper(cfg: Config, scope: Scope, call: CallExpr, g: Option<nat>, ig: Option<nat>,
      k: Mark)
    ensures !Any(HelperOps(cfg, scope, call, g, ig), k)
    decreases call, 0
  {
    hide SetupOps;
    var setup := SetupOps(cfg, scope, call.args, g, ig, false);
    NoneInSetup(cfg, scope, call.args, g, ig, false, k);
    AnyConcat(setup, HelperOps(cfg, scope, call, g, ig)[|setup|..], k);
    assert setup + HelperOps(cfg, scope, call, g, ig)[|setup|..] == HelperOps(cfg, scope, call, g, ig);
  }

  lemma CallEnds(cfg: Config, scope: Scope, call: CallExpr, sub: bool, p: Path, g: Option<nat>, ig: Option<nat>,
      text: string)
    requires Heads(call.head, p)
    ensures CallOps(cfg, scope, call, sub, g, ig, text) != []
    ensures Last(CallOps(cfg, scope, call, sub, g, ig, text)) ==
      match Classify(cfg, scope, call, sub)
      case Helper =>
        if Known(cfg, p) then InvokeKnownHelper(|call.args.params|, p.parts[0])
        else InvokeHelper(|call.args.params|, p.original, SimpleId(p))
      case Simple => ResolvePossibleLambda
      case Ambiguous =>
        InvokeAmbiguous(p.parts[0], g.Some? || ig.Some?, if cfg.mustacheLambdas then Some(text) else None)
  {
    hide SetupOps, PathOps, PairOps;
    ClassIs(cfg, scope, call, sub, p);
  }

  lemma AnyInCall(cfg: Config, scope: Scope, call: CallExpr, sub: bool, g: Option<nat>, ig: Option<nat>, text: string,
      k: Mark)
    ensures Any(CallOps(cfg, scope, call, sub, g, ig, text), k) <==>
      k.NameAsked? && Classify(cfg, scope, call, sub).Ambiguous?
  {
    hide SetupOps, PathOps, PairOps, HelperOps, Classify;
    var p, ops := HeadPath(call.head), CallOps(cfg, scope, call, sub, g, ig, text);
    match Classify(cfg, scope, call, sub)
    case Helper => NoneInHelper(cfg, scope, call, g, ig, k);
    case Simple =>
      AnyConcat(PathOps(scope, p, true, false), [ResolvePossibleLambda], k);
      PathHasNone(scope, p, k);
    case Ambiguous =>
      CallEnds(cfg, scope, call, sub, p, g, ig, text);
      assert Last(ops).InvokeAmbiguous?;
      ClassIs(cfg, scope, call, sub, p);
      AmbiguousHasNone(cfg, scope, p, g, ig, text, k);
  }

  lemma PathHasNone(scope: Scope, p: Path, k: Mark)
    ensures !Any(PathOps(scope, p, true, false), k)
  {
  }

  lemma AmbiguousHasNone(cfg: Config, scope: Scope, p: Path, g: Option<nat>, ig: Option<nat>, text: string, k: Mark)
    requires p.parts != []
    ensures !k.NameAsked? ==> !Any(AmbiguousOps(cfg, scope, p, g, ig, text), k)
  {
  }

  /**
   The law of classification. A call compiles to opcodes that ask for an ambiguous name, and then for its own, if
   and only if it is a bare unknown word; with arguments or inside another call it asks for a helper, known in
   advance or not as its name is; a block parameter, and a bare path that is no word, is a plain value.
   */
  lemma CallAsks(cfg: Config, scope: Scope, call: CallExpr, sub: bool, p: Path, g: Option<nat>, ig: Option<nat>,
      text: string)
    requires Heads(call.head, p)
    ensures var ops := CallOps(cfg, scope, call, sub, g, ig, text);
      && ops != []
      && (Any(ops, NameAsked) <==> AsksByName(cfg, scope, call, sub, p))
      && (AsksByName(cfg, scope, call, sub, p) ==>
        Last(ops) == InvokeAmbiguous(p.parts[0], g.Some? || ig.Some?, if cfg.mustacheLambdas then Some(text) else None))
      && (Last(ops).ResolvePossibleLambda? <==>
        Parameter(scope, p) || (!sub && NoArguments(call) && (!Word(p) || (!Known(cfg, p) && cfg.knownHelpersOnly))))
      && (Last(ops).InvokeKnownHelper? <==>
        !Parameter(scope, p) && Known(cfg, p) && (sub || !NoArguments(call) || Word(p)))
      && (Last(ops).InvokeKnownHelper? ==> Last(ops) == InvokeKnownHelper(|call.args.params|, p.parts[0]))
      && (Last(ops).InvokeHelper? <==> !Parameter(scope, p) && !Known(cfg, p) && (sub || !NoArguments(call)))
      && (Last(ops).InvokeHelper? ==> Last(ops) == InvokeHelper(|call.args.params|, p.original, Word(p)))
  {
    hide CallOps, Classify, Any;
    ClassIs(cfg, scope, call, sub, p);
    AnyInCall(cfg, scope, call, sub, g, ig, text, NameAsked);
    CallEnds(cfg, scope, call, sub, p, g, ig, text);
  }

  // ---- what a run asks for

  /** What running a template writes. */
  ghost function Output(i: Interp, cfg: Config, p: Program, context: Value, data: Value, fuel: nat): Result<string> {
    RunProgram(i, cfg, CompileProgram(cfg, [], p), Env([context], data, [], []), fuel)
  }

  /** Outermost in a template without parameters. */
  function Outermost(context: Value, data: Value): Scene {
    Scene([context], data, [Frame(Names(None, None), None)], [], BySlot)
  }

  lemma OutputOfOne(i: Interp, cfg: Config, stmt: Stmt, context: Value, data: Value, fuel: nat)
    requires StmtCompiles(cfg, [Names(None, None)], stmt) && StraightStmt(cfg, stmt)
    ensures Output(i, cfg, Program([stmt], None, None), context, data, fuel)
      == EvalStmt(i, cfg, Outermost(context, data), stmt, fuel)
  {
    hide RunProgram, CompileProgram, EvalStmt, StmtCompiles, StraightStmt;
    var s, p := Outermost(context, data), Program([stmt], None, None);
    assert Inner([], p) == [Names(None, None)];
    SingleStmt(cfg, [Names(None, None)], stmt);
    TemplateMeaning(i, cfg, p, context, data, fuel);
    assert [] + [Frame(Names(None, None), None)] == s.frames;
    EvalBodyStep(i, cfg, s, [stmt], fuel);
    assert [stmt][1..] == [];
    var t := EvalStmt(i, cfg, s, stmt, fuel);
    if t.Ok? { assert t.value + "" == t.value; }
  }

  function NameCall(name: string): CallExpr {
    CallExpr(Name(NamePath(name)), Args([], NoHash))
  }

  /** {{name}}, or {{{name}}} */
  function NameTemplate(name: string, unescaped: bool): Program {
    Program([Mustache(NameCall(name), unescaped, false)], None, None)
  }

  lemma NothingDeclared(name: string)
    ensures Word(NamePath(name)) <==> !ScopedText(name)
    ensures !Declared([Names(None, None)], name)
    ensures Resolve([Names(None, None)], name).None?
  {
    ResolveIsLexical([Names(None, None)], name);
  }

  /** The call an ambiguous name makes. */
  function AskFor(cfg: Config, name: string, looked: Value, env: Env): Call {
    var text := if cfg.mustacheLambdas then Some("") else None;
    Call(AmbiguousCall(name, looked, false, text), [], VHash([]), false, false, env)
  }

  /** A mustache shows the value of its call; braces or an option keep it from being escaped. */
  lemma NameOutput(i: Interp, cfg: Config, name: string, unescaped: bool, context: Value, data: Value, fuel: nat)
    ensures var v := EvalCall(i, cfg, Outermost(context, data), NameCall(name), false, None, None, "", fuel);
      Output(i, cfg, NameTemplate(name, unescaped), context, data, fuel) ==
        if v.Ok? then Ok(i.show(v.value, !unescaped && !cfg.noEscape)) else v.PropagateFailure()
  {
    hide EvalCall, Output;
    var stmt := Mustache(NameCall(name), unescaped, false);
    var scope := [Names(None, None)];
    ClassIs(cfg, scope, NameCall(name), false, NamePath(name));
    assert ArgsCompile(cfg, scope, NameCall(name).args) by { assert ParamsCompile(cfg, scope, []); }
    NothingDeclared(name);
    assert CallCompiles(cfg, scope, NameCall(name), false);
    OutputOfOne(i, cfg, stmt, context, data, fuel);
  }

  /** What has been looked up for the name. */
  function LookedUp(i: Interp, name: string, context: Value, data: Value): Result<Value> {
    i.onContext(context, Env([context], data, [], []), [name], true, false)
  }

  /**
   A bare unknown word: whatever has its name is called with what was looked up, which is shown only if the call
   returns null. Callees that render a program before they answer are left out here.
   */
  lemma WordIsAsked(i: Interp, cfg: Config, name: string, unescaped: bool, context: Value, data: Value, fuel: nat)
    requires !ScopedText(name) && !cfg.known(name) && !cfg.knownHelpersOnly
    ensures var run := Output(i, cfg, NameTemplate(name, unescaped), context, data, fuel);
      var looked := LookedUp(i, name, context, data);
      if !looked.Ok? then run == looked.PropagateFailure()
      else
        var v, escape := looked.value, !unescaped && !cfg.noEscape;
        match i.act(AskFor(cfg, name, v, Env([context], data, [], [])), [])
        case Render(_, _, _, _, _) => true
        case Throw => run == Thrown
        case Return(r) =>
          run == Ok(i.show(if r != VNull then r
            else if cfg.mustacheLambdas && i.callable(v) then i.wrapLambda(v, "", false) else v, escape))
  {
    hide Output, ScopedText, ScopedId;
    NameOutput(i, cfg, name, unescaped, context, data, fuel);
    NameScene(i, cfg, name, context, data);
    var s := Outermost(context, data);
    var looked := LookedUp(i, name, context, data);
    assert EvalCall(i, cfg, s, NameCall(name), false, None, None, "", fuel)
      == EvalAmbiguous(i, cfg, s, NamePath(name), "", None, None, fuel);
    if looked.Ok? {
      var v, t := looked.value, if cfg.mustacheLambdas then Some("") else None;
      var c := AskFor(cfg, name, v, View(s));
      assert c == CallFor(AmbiguousCall(name, v, false, t), [], VHash([]), None, None, s);
      var called := EvalAct(i, cfg, s, c, None, None, [], fuel);
      assert EvalAmbiguous(i, cfg, s, NamePath(name), "", None, None, fuel) ==
        if called.Ok? then Ok(OrLookedUp(i, cfg, called.value, v, false, t)) else called.PropagateFailure();
      assert i.act(c, []).Return? ==> called == Ok(i.act(c, []).value);
      assert i.act(c, []).Throw? ==> called == Thrown;
    }
  }

  /** The run shows what the callee returns, or throws as it does; nothing is said if it renders something first. */
  predicate Writes(run: Result<string>, i: Interp, a: Action, escape: bool) {
    match a
    case Render(_, _, _, _, _) => true
    case Throw => run == Thrown
    case Return(v) => run == Ok(i.show(v, escape))
  }

  /** Under known helpers only it is shown as it was looked up, or what it returns if it can be called. */
  lemma WordIsShown(i: Interp, cfg: Config, name: string, unescaped: bool, context: Value, data: Value, fuel: nat)
    requires !ScopedText(name) && !cfg.known(name) && cfg.knownHelpersOnly
    ensures var run := Output(i, cfg, NameTemplate(name, unescaped), context, data, fuel);
      var looked := LookedUp(i, name, context, data);
      if !looked.Ok? then run == looked.PropagateFailure()
      else
        var v, escape := looked.value, !unescaped && !cfg.noEscape;
        if !i.callable(v) then run == Ok(i.show(v, escape))
        else
          Writes(run, i, i.act(Call(LambdaCall(v), [context], VNull, false, false, Env([context], data, [], [])), []),
            escape)
  {
    hide Output, ScopedText, ScopedId;
    NameOutput(i, cfg, name, unescaped, context, data, fuel);
    NameScene(i, cfg, name, context, data);
    var s := Outermost(context, data);
    var looked := LookedUp(i, name, context, data);
    assert EvalCall(i, cfg, s, NameCall(name), false, None, None, "", fuel)
      == EvalResolved(i, cfg, s, NamePath(name), fuel);
    if looked.Ok? {
      var c := Call(LambdaCall(looked.value), [context], VNull, false, false, View(s));
      assert ContextAt(View(s), 0) == context;
      assert c == CallFor(LambdaCall(looked.value), [ContextAt(View(s), 0)], VNull, None, None, s);
      assert i.callable(looked.value) ==>
        EvalResolved(i, cfg, s, NamePath(name), fuel) == EvalAct(i, cfg, s, c, None, None, [], fuel);
    }
  }

  lemma NameScene(i: Interp, cfg: Config, name: string, context: Value, data: Value)
    ensures var s := Outermost(context, data);
      View(s) == Env([context], data, [], []) && ScopeOf(s.frames) == [Names(None, None)]
    ensures !ScopedText(name) ==>
      EvalPath(i, Outermost(context, data), NamePath(name), true) == LookedUp(i, name, context, data)
    ensures Classify(cfg, [Names(None, None)], NameCall(name), false) ==
      if ScopedText(name) then Simple else if cfg.known(name) then Helper
      else if cfg.knownHelpersOnly then Simple else Ambiguous
  {
    hide ScopedText, ScopedId;
    var s := Outermost(context, data);
    assert s.frames[..0] == [];
    NothingDeclared(name);
    ScopedExactly(NamePath(name));
    ClassIs(cfg, [Names(None, None)], NameCall(name), false, NamePath(name));
    assert ScopeOf(s.frames) == [Names(None, None)];
    assert Placed(s.frames, name).None?;
  }

  /** {{#name}}..{{/name}} */
  function BlockTemplate(name: string, body: Program, text: string): Program {
    Program([Block(NameCall(name), Some(body), None, false, text)], None, None)
  }

  /** What is taken for the value of an ambiguous name: the answer of the call, or else what was looked up. */
  function Taken(i: Interp, cfg: Config, r: Value, looked: Value, text: string): Value {
    if r != VNull then r
    else if cfg.mustacheLambdas && i.callable(looked) then i.wrapLambda(looked, text, true)
    else looked
  }

  /**
   A block over a bare unknown word asks for the name first. A helper's answer, or a lambda's, is what the block
   writes; over any other value blockHelperMissing decides, which is called with that value and the block.
   */
  lemma BlockIsAsked(i: Interp, cfg: Config, name: string, body: Program, text: string, context: Value, data: Value,
      fuel: nat)
    requires !ScopedText(name) && !cfg.known(name) && !cfg.knownHelpersOnly && LookedUp(i, name, context, data).Ok?
    requires ProgramCompiles(cfg, [Names(None, None)], body) && StraightProgram(cfg, body)
    ensures var run := Output(i, cfg, BlockTemplate(name, body, text), context, data, fuel);
      var env, v := Env([context], data, [], []), LookedUp(i, name, context, data).value;
      var t := if cfg.mustacheLambdas then Some(text) else None;
      var asked := i.act(Call(AmbiguousCall(name, v, true, t), [], VHash([]), true, false, env), []);
      && (asked.Throw? ==> run == Thrown)
      && (asked.Return? ==>
        var value := Taken(i, cfg, asked.value, v, text);
        if (cfg.mustacheLambdas && i.callable(v)) || i.hasHelper(name) then run == Ok(i.show(value, false))
        else
          Writes(run, i, i.act(Call(BlockHelperMissing(None), [value], VHash([]), true, false, env), []), false))
  {
    hide Output, ScopedText, ScopedId, ProgramCompiles, StraightProgram, Classify;
    var b := Block(NameCall(name), Some(body), None, false, text);
    var s, scope := Outermost(context, data), [Names(None, None)];
    NameScene(i, cfg, name, context, data);
    OutputOfOne(i, cfg, b, context, data, fuel);
    var v := LookedUp(i, name, context, data).value;
    var t := if cfg.mustacheLambdas then Some(text) else None;
    var c := Call(AmbiguousCall(name, v, true, t), [], VHash([]), true, false, View(s));
    assert c == CallFor(AmbiguousCall(name, v, true, t), [], VHash([]), b.program, b.inverse, s);
    assert EvalCall(i, cfg, s, b.call, false, b.program, b.inverse, text, fuel)
      == EvalAmbiguous(i, cfg, s, NamePath(name), text, b.program, b.inverse, fuel);
    var called := EvalAct(i, cfg, s, c, b.program, b.inverse, [], fuel);
    assert EvalAmbiguous(i, cfg, s, NamePath(name), text, b.program, b.inverse, fuel) ==
      if called.Ok? then Ok(OrLookedUp(i, cfg, called.value, v, true, t)) else called.PropagateFailure();
    assert BlockText(b) == text;
    assert EvalStmt(i, cfg, s, b, fuel) == EvalBlock(i, cfg, s, b, fuel);
    if i.act(c, []).Return? {
      assert called == Ok(i.act(c, []).value);
      MissingIsAsked(i, cfg, s, b, name, Taken(i, cfg, i.act(c, []).value, v, text), v, fuel);
    }
  }

  lemma MissingIsAsked(i: Interp, cfg: Config, s: Scene, b: Stmt, name: string, value: Value, v: Value, fuel: nat)
    requires b.Block? && HeadPath(b.call.head) == NamePath(name) && b.program.Some? && b.inverse.None?
    requires Classify(cfg, ScopeOf(s.frames), b.call, false).Ambiguous? && EvalPath(i, s, NamePath(name), true) == Ok(v)
    ensures var run := EvalBlockTail(i, cfg, s, b, value, fuel);
      if (cfg.mustacheLambdas && i.callable(v)) || i.hasHelper(name) then run == Ok(i.show(value, false))
      else
        Writes(run, i, i.act(Call(BlockHelperMissing(None), [value], VHash([]), true, false, View(s)), []), false)
  {
    hide Classify, EvalPath, ScopeOf, ParamsOf;
    var m := Call(BlockHelperMissing(None), [value], VHash([]), true, false, View(s));
    assert m == CallFor(BlockHelperMissing(None), [value], VHash([]), b.program, b.inverse, s);
    assert EvalMissing(i, cfg, s, None, value, b, fuel) == EvalAct(i, cfg, s, m, b.program, b.inverse, [], fuel);
  }

  // ---- and asks for it exactly then

  /** They differ in nothing but what is called by this name where a name is ambiguous. */
  ghost predicate AlikeBut(i: Interp, j: Interp, name: string) {
    && i == j.(act := i.act)
    && forall c: Call, texts :: !(c.kind.AmbiguousCall? && c.kind.name == name) ==> i.act(c, texts) == j.act(c, texts)
  }

  /** Nothing is found, nothing is said. */
  const SILENT: Interp := Interp((_, _) => Return(VStr("")), _ => false,
      _ => true, (v, _, _) => v, (a, b) => a == b, (_, _) => None,
      (_, _, _, _, _) => Ok(VNull), (_, _, _, _) => Ok(VNull),
      (v: Value, _) => if v.VStr? then v.s else "", (text, _) => text, _ => 0)

  /** The name alone has an answer, where names are ambiguous. */
  function Teller(name: string, answer: string): Interp {
    SILENT.(act := (c: Call, texts: seq<string>) =>
      Return(VStr(if c.kind.AmbiguousCall? && c.kind.name == name then answer else "")))
  }

  lemma ActsAlike(i: Interp, j: Interp, cfg: Config, name: string, s: Scene, c: Call, texts: seq<string>, fuel: nat)
    requires AlikeBut(i, j, name) && !c.kind.AmbiguousCall?
    ensures EvalAct(i, cfg, s, c, None, None, texts, fuel) == EvalAct(j, cfg, s, c, None, None, texts, fuel)
    decreases fuel
  {
    if fuel > 0 { ActsAlike(i, j, cfg, name, s, c, texts + [""], fuel - 1); }
  }

  /**
   What is called by its name where a name is ambiguous can make a difference to {{name}} if and only if the name is
   a word, is not known, and other helpers than known ones are allowed.
   */
  lemma AskedExactly(cfg: Config, name: string, unescaped: bool)
    ensures !ScopedText(name) && !cfg.known(name) && !cfg.knownHelpersOnly <==>
      exists i: Interp, j: Interp, context, data, fuel :: AlikeBut(i, j, name) &&
        Output(i, cfg, NameTemplate(name, unescaped), context, data, fuel)
          != Output(j, cfg, NameTemplate(name, unescaped), context, data, fuel)
  {
    hide Output, ScopedText, ScopedId;
    var p := NameTemplate(name, unescaped);
    if !ScopedText(name) && !cfg.known(name) && !cfg.knownHelpersOnly {
      var i, j := Teller(name, "a"), Teller(name, "b");
      WordIsAsked(i, cfg, name, unescaped, VNull, VNull, 0);
      WordIsAsked(j, cfg, name, unescaped, VNull, VNull, 0);
      assert Output(i, cfg, p, VNull, VNull, 0) == Ok("a") && Output(j, cfg, p, VNull, VNull, 0) == Ok("b");
      assert i == j.(act := i.act) && AlikeBut(i, j, name);
    } else {
      forall i: Interp, j: Interp, context, data, fuel | AlikeBut(i, j, name)
        ensures Output(i, cfg, p, context, data, fuel) == Output(j, cfg, p, context, data, fuel)
      {
        NotAsked(i, j, cfg, name, unescaped, context, data, fuel);
      }
    }
  }

  lemma NotAsked(i: Interp, j: Interp, cfg: Config, name: string, unescaped: bool, context: Value, data: Value,
      fuel: nat)
    requires AlikeBut(i, j, name) && (ScopedText(name) || cfg.known(name) || cfg.knownHelpersOnly)
    ensures Output(i, cfg, NameTemplate(name, unescaped), context, data, fuel)
      == Output(j, cfg, NameTemplate(name, unescaped), context, data, fuel)
  {
    hide Output, ScopedText, ScopedId, EvalAct;
    NameOutput(i, cfg, name, unescaped, context, data, fuel);
    NameOutput(j, cfg, name, unescaped, context, data, fuel);
    NameScene(i, cfg, name, context, data);
    var s, p := Outermost(context, data), NamePath(name);
    forall c: Call | !c.kind.AmbiguousCall?
      ensures EvalAct(i, cfg, s, c, None, None, [], fuel) == EvalAct(j, cfg, s, c, None, None, [], fuel)
    {
      ActsAlike(i, j, cfg, name, s, c, [], fuel);
    }
    LooksAlike(i, j, s, p);
    assert EvalResolved(i, cfg, s, p, fuel) == EvalResolved(j, cfg, s, p, fuel);
    var args := NameCall(name).args;
    assert EvalKnown(i, cfg, s, name, args, None, None, fuel) == EvalKnown(j, cfg, s, name, args, None, None, fuel) by {
      assert EvalParams(i, cfg, s, [], fuel) == EvalParams(j, cfg, s, [], fuel) == Ok([]);
      assert EvalHash(i, cfg, s, NoHash, fuel) == EvalHash(j, cfg, s, NoHash, fuel) == Ok(VHash([]));
    }
  }

  lemma LooksAlike(i: Interp, j: Interp, s: Scene, p: Path)
    requires i == j.(act := i.act)
    ensures EvalPath(i, s, p, true) == EvalPath(j, s, p, true)
  {
    forall v, names ensures Descend(i, v, names) == Descend(j, v, names) {
      DescendsAlike(i, j, v, names);
    }
  }

  lemma {:induction false} DescendsAlike(i: Interp, j: Interp, v: Value, names: seq<string>)
    requires i == j.(act := i.act)
    ensures Descend(i, v, names) == Descend(j, v, names)
    decreases |names|
  {
    if names != [] && i.member(v, names[0]).Some? { DescendsAlike(i, j, i.member(v, names[0]).value, names[1..]); }
  }
}

/** What .. means: the contexts of the enclosing programs, as the machine stacks them and as lookups count them. */
module Contexts {
  import opened Options
  import opened Ast
  import opened CodeGen
  import opened Vm
  import opened Eval
  import opened Meaning
  import opened KnownBlocks
  import opened Dispatch

  // ---- entering programs

  /** The context asked for is the current one. */
  predicate Stays(i: Interp, contexts: seq<Value>, context: Value) {
    contexts != [] && i.same(contexts[|contexts| - 1], context)
  }

  /**
   A program entered with another context than the current one has that context at depth 0 and at every depth above
   what was one less deep; with the current one nothing moves. Beyond the outermost context there is nothing. Data is
   kept unless there is new data; parameters and blocks go on top of what there was.
   */
  lemma Entered(i: Interp, env: Env, a: Action)
    requires a.Render?
    ensures var e := Enter(i, env, a);
      && (Stays(i, env.contexts, a.context) ==> forall d: nat :: ContextAt(e, d) == ContextAt(env, d))
      && (!Stays(i, env.contexts, a.context) ==> ContextAt(e, 0) == a.context)
      && (!Stays(i, env.contexts, a.context) ==> forall d: nat :: d > 0 ==> ContextAt(e, d) == ContextAt(env, d - 1))
      && (forall d: nat :: d >= |e.contexts| ==> ContextAt(e, d) == VNull)
      && e.data == (if a.data.Some? then a.data.value else env.data)
      && e.blockParams == env.blockParams + (if a.params.Some? then [a.params.value] else [])
      && e.blocks == env.blocks + (if a.block.Some? then [a.block.value] else [])
  {
  }

  predicate AllRender(renders: seq<Action>) {
    forall n :: 0 <= n < |renders| ==> renders[n].Render?
  }

  /** Entering programs one inside the other, the outermost first. */
  function EnterAll(i: Interp, env: Env, renders: seq<Action>): Env
    requires AllRender(renders)
  {
    if renders == [] then env
    else Enter(i, EnterAll(i, env, renders[..|renders| - 1]), renders[|renders| - 1])
  }

  /** Program n is entered with another context than it would have anyway. */
  predicate MovesAt(i: Interp, env: Env, renders: seq<Action>, n: nat)
    requires AllRender(renders) && n < |renders|
  {
    !Stays(i, if n == 0 then env.contexts else [renders[n - 1].context], renders[n].context)
  }

  predicate AllMove(i: Interp, env: Env, renders: seq<Action>)
    requires AllRender(renders)
  {
    forall n :: 0 <= n < |renders| ==> MovesAt(i, env, renders, n)
  }

  lemma BeforeMove(i: Interp, env: Env, renders: seq<Action>)
    requires AllRender(renders) && AllMove(i, env, renders) && renders != []
    ensures AllRender(renders[..|renders| - 1]) && AllMove(i, env, renders[..|renders| - 1])
  {
    var before := renders[..|renders| - 1];
    forall n | 0 <= n < |before| ensures MovesAt(i, env, before, n) {
      assert MovesAt(i, env, renders, n) && before[n] == renders[n];
    }
  }

  /** So many levels up lies the context of the program entered so many levels further out. */
  lemma {:induction false} NthEnclosing(i: Interp, env: Env, renders: seq<Action>, depth: nat)
    requires AllRender(renders) && AllMove(i, env, renders)
    ensures ContextAt(EnterAll(i, env, renders), depth) ==
      if depth < |renders| then renders[|renders| - 1 - depth].context else ContextAt(env, depth - |renders|)
    decreases |renders|
  {
    if renders != [] {
      hide ContextAt, Stays;
      var last := |renders| - 1;
      var before := renders[..last];
      BeforeMove(i, env, renders);
      var inner := EnterAll(i, env, before);
      EnteredLast(i, env, renders);
      Entered(i, inner, renders[last]);
      if depth > 0 { NthEnclosing(i, env, before, depth - 1); }
    }
  }

  /** The current context is that of the program entered last. */
  lemma EnteredLast(i: Interp, env: Env, renders: seq<Action>)
    requires AllRender(renders) && AllMove(i, env, renders) && renders != []
    ensures AllRender(renders[..|renders| - 1])
    ensures !Stays(i, EnterAll(i, env, renders[..|renders| - 1]).contexts, renders[|renders| - 1].context)
    decreases |renders|
  {
    var last := |renders| - 1;
    var before := renders[..last];
    assert MovesAt(i, env, renders, last);
    BeforeMove(i, env, renders);
    if last > 0 { EnteredLast(i, env, before); }
  }

  // ---- .. in a template

  /** ../name, or ../../name and so on. */
  function Above(name: string, levels: nat): Path
    requires levels > 0
  {
    Path([name], Ups(levels) + name, levels, false)
  }

  function Ups(levels: nat): (s: string)
    ensures levels > 0 ==> s != "" && s[0] == '.'
  {
    if levels == 0 then "" else "../" + Ups(levels - 1)
  }

  function ShowAbove(name: string, levels: nat): Stmt
    requires levels > 0
  {
    Mustache(CallExpr(Name(Above(name, levels)), Args([], NoHash)), true, false)
  }

  /** The value of a name in a context is looked up as that of a scoped path. */
  function InContext(i: Interp, s: Scene, context: Value, name: string): Result<Value> {
    i.onContext(context, View(s), [name], true, true)
  }

  lemma AboveCompiles(cfg: Config, scope: Scope, name: string, levels: nat)
    requires levels > 0
    ensures Classify(cfg, scope, ShowAbove(name, levels).call, false) == Simple
    ensures StmtCompiles(cfg, scope, ShowAbove(name, levels)) && StraightStmt(cfg, ShowAbove(name, levels))
  {
  }

  /** {{{../name}}}, so many levels up, shows what the name is in the context so many levels up, null beyond. */
  lemma AboveShows(i: Interp, cfg: Config, s: Scene, name: string, levels: nat, fuel: nat)
    requires levels > 0
    ensures var above := if levels < |s.contexts| then s.contexts[|s.contexts| - 1 - levels] else VNull;
      var v := InContext(i, s, above, name);
      v.Ok? && !i.callable(v.value) ==>
        EvalStmt(i, cfg, s, ShowAbove(name, levels), fuel) == Ok(i.show(v.value, false))
  {
    hide ParamsOf, ScopeOf;
    AboveCompiles(cfg, ScopeOf(s.frames), name, levels);
    var above := if levels < |s.contexts| then s.contexts[|s.contexts| - 1 - levels] else VNull;
    var p := Above(name, levels);
    assert EvalPath(i, s, p, true) == InContext(i, s, above, name);
    var v := InContext(i, s, above, name);
    if v.Ok? && !i.callable(v.value) {
      assert EvalResolved(i, cfg, s, p, fuel) == v;
      assert EvalCall(i, cfg, s, ShowAbove(name, levels).call, false, None, None, "", fuel) == v;
    }
  }

  /** {{#helper args}}..{{/helper}} */
  function BlockOf(helper: string, params: seq<Expr>, body: Program): Stmt {
    Block(CallExpr(Name(NamePath(helper)), Args(params, NoHash)), Some(body), None, false, "")
  }

  /** What an outermost block of a known helper asks for. */
  function BlockCall(helper: string, args: seq<Value>, context: Value, data: Value): Call {
    Call(KnownHelper(helper), args, VHash([]), true, false, Env([context], data, [], []))
  }

  lemma KnownBlockCompiles(cfg: Config, scope: Scope, helper: string, params: seq<Expr>, body: Program)
    requires cfg.known(helper) && Classify(cfg, scope, BlockOf(helper, params, body).call, false).Helper?
    requires ParamsCompile(cfg, scope, params) && ProgramCompiles(cfg, scope, body) && StraightProgram(cfg, body)
    ensures StmtCompiles(cfg, scope, BlockOf(helper, params, body))
    ensures StraightStmt(cfg, BlockOf(helper, params, body))
  {
    hide Classify, ParamsCompile, ProgramCompiles, StraightProgram;
    var b := BlockOf(helper, params, body);
    assert ArgsCompile(cfg, scope, b.call.args) && IsKnownHelper(cfg, HeadPath(b.call.head));
    assert CallCompiles(cfg, scope, b.call, false);
    assert OptionalCompiles(cfg, scope, b.program) && OptionalCompiles(cfg, scope, b.inverse);
    assert StraightOption(cfg, b.program) && StraightOption(cfg, b.inverse);
  }

  /** An outermost block of a known helper writes what the helper returns, called with the arguments and the block. */
  lemma KnownBlockOutput(i: Interp, cfg: Config, helper: string, params: seq<Expr>, vs: seq<Value>, body: Program,
      context: Value, data: Value, fuel: nat)
    requires cfg.known(helper) && i.hasHelper(helper) && !ScopedText(helper)
    requires ParamsCompile(cfg, [Names(None, None)], params)
    requires EvalParams(i, cfg, Outermost(context, data), params, fuel) == Ok(vs)
    requires ProgramCompiles(cfg, [Names(None, None)], body) && StraightProgram(cfg, body)
    ensures var r := EvalAct(i, cfg, Outermost(context, data), BlockCall(helper, vs, context, data), Some(body), None,
        [], fuel);
      Output(i, cfg, Program([BlockOf(helper, params, body)], None, None), context, data, fuel)
        == if r.Ok? then Ok(i.show(r.value, false)) else r.PropagateFailure()
  {
    hide Output, ScopedText, ScopedId, Classify, EvalAct, ParamsCompile, EvalParams, ProgramCompiles, StraightProgram;
    var s, b, scope := Outermost(context, data), BlockOf(helper, params, body), [Names(None, None)];
    NothingDeclared(helper);
    ClassIs(cfg, scope, b.call, false, NamePath(helper));
    NameScene(i, cfg, helper, context, data);
    KnownBlockCompiles(cfg, scope, helper, params, body);
    OutputOfOne(i, cfg, b, context, data, fuel);
    var c := CallFor(KnownHelper(helper), vs, VHash([]), b.program, b.inverse, s);
    assert c == BlockCall(helper, vs, context, data);
    var r := EvalAct(i, cfg, s, c, b.program, b.inverse, [], fuel);
    assert EvalHash(i, cfg, s, NoHash, fuel) == Ok(VHash([]));
    assert EvalKnown(i, cfg, s, helper, b.call.args, b.program, b.inverse, fuel) == r;
    assert EvalCall(i, cfg, s, b.call, false, b.program, b.inverse, BlockText(b), fuel) == r;
    if r.Ok? { assert EvalBlockTail(i, cfg, s, b, r.value, fuel) == Ok(i.show(r.value, false)); }
    assert EvalStmt(i, cfg, s, b, fuel) == EvalBlock(i, cfg, s, b, fuel);
  }

  /** A program of one statement, rendered from the outermost scene. */
  lemma OneRendered(i: Interp, cfg: Config, stmt: Stmt, s: Scene, names: Names, a: Action, fuel: nat)
    requires a.Render?
    ensures var inner := EnterScene(i, s, a);
      EvalProgram(i, cfg, Program([stmt], names.first, names.second), inner, a.params, fuel)
        == EvalStmt(i, cfg, inner.(frames := s.frames + [Frame(names, a.params)]), stmt, fuel)
  {
    hide EvalStmt;
    var inner := EnterScene(i, s, a);
    var scene := inner.(frames := s.frames + [Frame(names, a.params)]);
    EvalBodyStep(i, cfg, scene, [stmt], fuel);
    assert [stmt][1..] == [];
    var t := EvalStmt(i, cfg, scene, stmt, fuel);
    if t.Ok? { assert t.value + "" == t.value; }
  }

  /** {{{../name}}} as the program of a block. */
  function ParentBody(name: string): Program {
    Program([ShowAbove(name, 1)], None, None)
  }

  lemma ParentBodyCompiles(cfg: Config, scope: Scope, name: string)
    ensures ProgramCompiles(cfg, scope, ParentBody(name)) && StraightProgram(cfg, ParentBody(name))
  {
    hide StmtCompiles, StraightStmt;
    var p := ParentBody(name);
    SingleStmt(cfg, Inner(scope, p), p.stmts[0]);
    AboveCompiles(cfg, Inner(scope, p), name, 1);
  }

  /**
   In a block, ../name is looked up in the context around the block: when the helper renders its block once, in
   another context than the current one, the text it gets is what name is in the current one.
   */
  lemma ParentIsRead(i: Interp, cfg: Config, helper: string, name: string, context: Value, data: Value, a: Action,
      fuel: nat)
    requires cfg.known(helper) && i.hasHelper(helper) && !ScopedText(helper) && fuel > 0
    requires a.Render? && !a.inverse && i.act(BlockCall(helper, [], context, data), []) == a
    requires !i.same(context, a.context)
    ensures var inner := Env([context, a.context], if a.data.Some? then a.data.value else data,
        if a.params.Some? then [a.params.value] else [], if a.block.Some? then [a.block.value] else []);
      var v := i.onContext(context, inner, [name], true, true);
      v.Ok? && !i.callable(v.value) ==>
        Writes(Output(i, cfg, Program([BlockOf(helper, [], ParentBody(name))], None, None), context, data, fuel), i,
          i.act(BlockCall(helper, [], context, data), [i.show(v.value, false)]), false)
  {
    hide Output, ScopedText, EvalStmt, EvalProgram, EvalAct, ParamsOf, ScopeOf;
    var s, body, c := Outermost(context, data), ParentBody(name), BlockCall(helper, [], context, data);
    ParentBodyCompiles(cfg, [Names(None, None)], name);
    KnownBlockOutput(i, cfg, helper, [], [], body, context, data, fuel);
    OneRendered(i, cfg, body.stmts[0], s, Names(None, None), a, fuel - 1);
    var scene := EnterScene(i, s, a).(frames := s.frames + [Frame(Names(None, None), a.params)]);
    ViewOfInner(i, s, a, Names(None, None));
    NameScene(i, cfg, helper, context, data);
    assert View(scene).contexts == [context] + [a.context] == [context, a.context];
    assert a.params.Some? ==> [] + [a.params.value] == [a.params.value];
    assert a.block.Some? ==> [] + [a.block.value] == [a.block.value];
    var inner := Env([context, a.context], if a.data.Some? then a.data.value else data,
        if a.params.Some? then [a.params.value] else [], if a.block.Some? then [a.block.value] else []);
    assert View(scene) == inner;
    assert BlockOf(helper, [], body).program == Some(body);
    AboveShows(i, cfg, scene, name, 1, fuel - 1);
    var v := InContext(i, scene, context, name);
    if v.Ok? && !i.callable(v.value) {
      assert EvalProgram(i, cfg, body, EnterScene(i, s, a), a.params, fuel - 1) == Ok(i.show(v.value, false));
      RenderedOnce(i, cfg, s, c, a, body, i.show(v.value, false), fuel);
    }
  }

  /** A callee that renders its program once gets the text, and goes on with it. */
  lemma RenderedOnce(i: Interp, cfg: Config, s: Scene, c: Call, a: Action, body: Program, text: string, fuel: nat)
    requires fuel > 0 && a.Render? && !a.inverse && i.act(c, []) == a
    requires EvalProgram(i, cfg, body, EnterScene(i, s, a), a.params, fuel - 1) == Ok(text)
    ensures EvalAct(i, cfg, s, c, Some(body), None, [], fuel)
      == EvalAct(i, cfg, s, c, Some(body), None, [text], fuel - 1)
    ensures i.act(c, [text]).Return? ==>
      EvalAct(i, cfg, s, c, Some(body), None, [], fuel) == Ok(i.act(c, [text]).value)
    ensures i.act(c, [text]).Throw? ==> EvalAct(i, cfg, s, c, Some(body), None, [], fuel) == Thrown
  {
    hide EvalProgram;
    assert [] + [text] == [text];
  }
}

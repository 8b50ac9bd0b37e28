/** Programs of a single statement, and blocks of known helpers: what they evaluate to. */
module KnownBlocks {
  import opened Options
  import opened Ast
  import opened CodeGen
  import opened Vm
  import opened Eval
  import opened Meaning

  lemma SingleStmt(cfg: Config, scope: Scope, s: Stmt)
    ensures BodyOps(cfg, scope, [s], 0) == StmtOps(cfg, scope, s, 0) && BodyKids(cfg, scope, [s]) ==
      StmtKids(cfg, scope, s)
    ensures BodyCompiles(cfg, scope, [s]) <==> StmtCompiles(cfg, scope, s)
    ensures StraightBody(cfg, [s]) <==> StraightStmt(cfg, s)
  {
    assert [s][1..] == [];
  }

  lemma SingleMeans(i: Interp, cfg: Config, s: Scene, stmt: Stmt, fuel: nat, text: string)
    requires EvalStmt(i, cfg, s, stmt, fuel) == Ok(text)
    ensures EvalBody(i, cfg, s, [stmt], fuel) == Ok(text)
  {
    EvalBodyStep(i, cfg, s, [stmt], fuel);
    assert [stmt][1..] == [] && text + "" == text;
  }

  /** A block that calls a known helper without a hash. */
  predicate IsKnownBlock(cfg: Config, scope: Scope, b: Stmt) {
    && b.Block? && !b.decorator && b.call.args.hash.NoHash?
    && IsKnownHelper(cfg, HeadPath(b.call.head)) && Classify(cfg, scope, b.call, false).Helper?
  }

  function KnownName(b: Stmt): string
    requires b.Block? && HeadPath(b.call.head).parts != []
  {
    HeadPath(b.call.head).parts[0]
  }

  /** The block means what the helper returns. */
  lemma {:induction false} KnownBlockMeans(i: Interp, cfg: Config, s: Scene, b: Stmt, vs: seq<Value>, v: Value,
      fuel: nat)
    requires IsKnownBlock(cfg, ScopeOf(s.frames), b) && i.hasHelper(KnownName(b))
    requires EvalParams(i, cfg, s, b.call.args.params, fuel) == Ok(vs)
    requires EvalAct(i, cfg, s, CallFor(KnownHelper(KnownName(b)), vs, VHash([]), b.program, b.inverse, s), b.program,
      b.inverse, [], fuel) == Ok(v)
    ensures EvalStmt(i, cfg, s, b, fuel) == Ok(i.show(v, false))
  {
    hide EvalAct, EvalParams, ScopeOf, ParamsOf, Classify, ScopedId, View;
    assert EvalHash(i, cfg, s, NoHash, fuel) == Ok(VHash([]));
    assert EvalKnown(i, cfg, s, KnownName(b), b.call.args, b.program, b.inverse, fuel) == Ok(v);
    assert EvalCall(i, cfg, s, b.call, false, b.program, b.inverse, BlockText(b), fuel) == Ok(v);
    assert EvalBlockTail(i, cfg, s, b, v, fuel) == Ok(i.show(v, false));
    assert EvalBlock(i, cfg, s, b, fuel) == Ok(i.show(v, false));
  }

  // ---- mustaches that show a block parameter

  function NamePath(name: string): Path {
    Path([name], name, 0, false)
  }

  function Show(name: string): Stmt {
    Mustache(CallExpr(Name(NamePath(name)), Args([], NoHash)), true, false)
  }

  predicate PlainName(name: string) {
    !ScopedId(NamePath(name))
  }

  /** The value of a block parameter; a missing one is null. */
  function ValueOf(v: Option<Value>): Value {
    v.GetOr(VNull)
  }

  lemma ShowCompiles(cfg: Config, scope: Scope, name: string)
    requires PlainName(name) && Resolve(scope, name).Some?
    ensures Classify(cfg, scope, Show(name).call, false) == Simple
    ensures StmtCompiles(cfg, scope, Show(name))
  {
  }

  /** The mustache shows what is found for the name. */
  lemma ShowMeans(i: Interp, cfg: Config, s: Scene, name: string, fuel: nat)
    requires PlainName(name) && Resolve(ScopeOf(s.frames), name).Some?
    requires Found(s, name).Some? && !i.callable(ValueOf(Found(s, name).value))
    ensures EvalStmt(i, cfg, s, Show(name), fuel) == Ok(i.show(ValueOf(Found(s, name).value), false))
  {
    hide Found;
    var p := NamePath(name);
    assert p.parts[1..] == [];
    var v := ValueOf(Found(s, name).value);
    assert EvalPath(i, s, p, true) == Ok(v);
    ShowCompiles(cfg, ScopeOf(s.frames), name);
    assert EvalResolved(i, cfg, s, p, fuel) == Ok(v);
    assert EvalCall(i, cfg, s, Show(name).call, false, None, None, "", fuel) == Ok(v);
  }
}

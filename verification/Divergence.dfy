/** Templates whose run differs from their meaning, and the nearest ones where it does not. */
module Divergence {
  import opened HbsString
  import opened Options
  import opened AssocList
  import opened Ast
  import opened CodeGen
  import opened Vm
  import opened Eval
  import opened Slots
  import opened Meaning
  import opened Safety
  import opened Policies
  import opened KnownBlocks
  import opened Builtins

  function Member(v: Value, name: string): Value {
    if v.VHash? then Find(v.entries, HString(name, 0)).GetOr(VNull) else VNull
  }

  /** lookup, and one partial called q. */
  function OtherAct(call: Call): Action {
    match call.kind
    case KnownHelper(name) =>
      if name == "lookup" && |call.args| == 2 && call.args[1].VStr? then Return(Member(call.args[0], call.args[1].s))
        else Throw
    case PartialCall(name, _) => if name == Some(VStr("q")) then Return(VStr("found")) else Throw
    case _ => Throw
  }

  const RT: Runtime := Runtime(v => v, _ => false, (data, _, _, _) => data)

  /** The built-in helpers over plain values. */
  const PLAIN: Interp := Interp(
    (call: Call, texts: seq<string>) => BuiltinAct(RT, call, texts).GetOr(OtherAct(call)),
    _ => false, _ => true, (v, _, _) => v, (a, b) => a == b, (_, _) => None,
    (v: Value, _, parts: seq<string>, _, _) => Ok(if parts == [] then v else Member(v, parts[0])),
    (_, _, _, _) => Ok(VNull),
    (v: Value, _) => if v.VStr? then v.s else "", (text, _) => text, _ => 0)

  lemma PlainHasBuiltins()
    ensures HasBuiltins(PLAIN, RT)
  {
  }

  predicate BuiltinName(name: string) {
    name == "with" || name == "if" || name == "each" || name == "unless" || name == "lookup"
  }

  const CFG: Config := Config(false, false, false, false, false, name => BuiltinName(name), _ => None)

  /** A block of a known helper over the value of one name. */
  function BlockOver(helper: string, arg: string, body: Program): Stmt {
    Block(CallExpr(Name(NamePath(helper)), Args([PathExpr(NamePath(arg))], NoHash)), Some(body), None, false, "")
  }

  const NONE: Names := Names(None, None)
  const NAMED_A: Names := Names(Some("a"), None)

  const IF_BODY: Program := Program([Show("a")], None, None)
  const WITH_BODY: Program := Program([BlockOver("if", "a", IF_BODY)], Some("a"), None)

  /** {{#with x as |a|}}{{#if a}}{{{a}}}{{/if}}{{/with}} */
  const LOST: Program := Program([BlockOver("with", "x", WITH_BODY)], None, None)

  /** {{#with x as |a|}}{{{a}}}{{/with}} */
  const KEPT: Program := Program([BlockOver("with", "x", Program([Show("a")], Some("a"), None))], None, None)

  const ROOT: Value := VHash([Pair(HString("x", 0), VStr("v"))])
  const S0: Scope := [NONE]
  const S1: Scope := [NONE, NAMED_A]
  const S2: Scope := [NONE, NAMED_A, NONE]

  lemma ScopesResolve()
    ensures Resolve(S0, "with").None? && Resolve(S0, "x").None?
    ensures Resolve(S1, "if").None? && Resolve(S1, "a") == Some(Ref(0, 0)) && Resolve(S2, "a") == Some(Ref(1, 0))
  {
    assert S2[..2] == S1 && S1[..1] == S0 && S0[..0] == [];
    assert Resolve(S0[..0], "with").None? && Resolve(S0[..0], "if").None? && Resolve(S0[..0], "x").None?;
  }

  lemma NamesArePlain()
    ensures PlainName("with") && PlainName("if") && PlainName("x") && PlainName("a")
  {
    assert "with" != "this";
  }

  lemma BlockOverIsKnown(scope: Scope, helper: string, arg: string, body: Program)
    requires BuiltinName(helper) && Resolve(scope, helper).None?
    ensures IsKnownBlock(CFG, scope, BlockOver(helper, arg, body)) && KnownName(BlockOver(helper, arg, body)) == helper
  {
    assert CFG.known(helper);
  }

  lemma BlockOverCompiles(scope: Scope, helper: string, arg: string, body: Program)
    requires BuiltinName(helper) && Resolve(scope, helper).None?
    ensures StmtCompiles(CFG, scope, BlockOver(helper, arg, body)) <==> ProgramCompiles(CFG, scope, body)
    ensures StraightStmt(CFG, BlockOver(helper, arg, body)) <==> StraightProgram(CFG, body)
  {
    hide ProgramCompiles, StraightProgram;
    BlockOverIsKnown(scope, helper, arg, body);
    var b := BlockOver(helper, arg, body);
    var e := b.call.args.params;
    assert e[1..] == [] && ParamsCompile(CFG, scope, e[1..]) && ExprCompiles(CFG, scope, e[0]);
    assert ArgsCompile(CFG, scope, b.call.args) && IsKnownHelper(CFG, HeadPath(b.call.head));
    assert CallCompiles(CFG, scope, b.call, false);
    assert OptionalCompiles(CFG, scope, b.program) <==> ProgramCompiles(CFG, scope, body);
    assert OptionalCompiles(CFG, scope, b.inverse) && StraightOption(CFG, b.inverse);
    assert StraightOption(CFG, b.program) <==> StraightProgram(CFG, body);
  }

  lemma Compile(p: Program, scope: Scope, inner: Scope)
    requires |p.stmts| == 1 && Inner(scope, p) == inner
    ensures ProgramCompiles(CFG, scope, p) <==> StmtCompiles(CFG, inner, p.stmts[0])
    ensures StraightProgram(CFG, p) <==> StraightStmt(CFG, p.stmts[0])
  {
    assert p.stmts == [p.stmts[0]];
    SingleStmt(CFG, inner, p.stmts[0]);
  }

  lemma LostCompiles()
    ensures ProgramCompiles(CFG, [], LOST) && StraightProgram(CFG, LOST)
  {
    ScopesResolve();
    NamesArePlain();
    Compile(LOST, [], S0);
    Compile(WITH_BODY, S0, S1);
    Compile(IF_BODY, S1, S2);
    BlockOverCompiles(S0, "with", "x", WITH_BODY);
    BlockOverCompiles(S1, "if", "a", IF_BODY);
    ShowCompiles(CFG, S2, "a");
  }

  // ---- what happens around the leaf

  const F0: seq<Frame> := [Frame(NONE, None)]
  const V: Value := VStr("v")
  const F1: seq<Frame> := [Frame(NONE, None), Frame(NAMED_A, Some(VArray([V])))]
  const F2: seq<Frame> := [Frame(NONE, None), Frame(NAMED_A, Some(VArray([V]))), Frame(NONE, None)]
  function At0(n: Naming): Scene { Scene([ROOT], VNull, F0, [], n) }
  function At1(n: Naming): Scene { Scene([ROOT, V], VNull, F1, [], n) }
  function At2(n: Naming): Scene { Scene([ROOT, V], VNull, F2, [], n) }

  lemma Frames()
    ensures ScopeOf(F0) == S0 && ScopeOf(F1) == S1 && ScopeOf(F2) == S2
    ensures ParamsOf(F0) == [] && ParamsOf(F1) == [VArray([V])] && ParamsOf(F2) == [VArray([V])]
    ensures Bound(F0, "x").None? && Bound(F1, "a") == Some(Some(V)) && Bound(F2, "a") == Some(Some(V))
  {
    assert F2[..2] == F1 && F1[..1] == F0 && F0[..0] == [];
    assert Bound(F0[..0], "x").None?;
  }

  /** What is found for a and x, by slot and by name: inside if, by slot, nothing. */
  lemma Lookups(n: Naming)
    ensures Found(At0(n), "x").None? && Found(At1(n), "a") == Some(Some(V))
    ensures Found(At2(n), "a") == Some(if n.BySlot? then None else Some(V))
  {
    Frames();
    ScopesResolve();
  }

  lemma Arguments(n: Naming, fuel: nat)
    ensures EvalParams(PLAIN, CFG, At0(n), [PathExpr(NamePath("x"))], fuel) == Ok([V])
    ensures EvalParams(PLAIN, CFG, At1(n), [PathExpr(NamePath("a"))], fuel) == Ok([V])
  {
    Lookups(n);
    hide Found;
    NamesArePlain();
    var x, a := NamePath("x"), NamePath("a");
    assert Member(ROOT, "x") == V;
    assert EvalPath(PLAIN, At0(n), x, false) == Ok(V);
    assert a.parts[1..] == [];
    assert EvalPath(PLAIN, At1(n), a, false) == Ok(V);
    assert [PathExpr(x)][1..] == [] && [PathExpr(a)][1..] == [];
    assert [V] + [] == [V];
  }

  /** A helper that renders its program once returns the text. */
  lemma {:induction false} RendersOnce(s: Scene, b: Stmt, names: Names, body: Program, a: Action, child: Scene,
      fuel: nat, text: string)
    requires IsKnownBlock(CFG, ScopeOf(s.frames), b) && b.program == Some(body) && b.inverse == None
    requires names == Names(body.param1, body.param2) && fuel > 0 && a.Render? && !a.inverse
    requires EvalParams(PLAIN, CFG, s, b.call.args.params, fuel) == Ok([V])
    requires var call := CallFor(KnownHelper(KnownName(b)), [V], VHash([]), b.program, b.inverse, s);
      PLAIN.act(call, []) == a && PLAIN.act(call, [text]) == Return(VStr(text))
    requires child == EnterScene(PLAIN, s, a).(frames := s.frames + [Frame(names, a.params)])
    requires EvalBody(PLAIN, CFG, child, body.stmts, fuel - 1) == Ok(text)
    ensures EvalStmt(PLAIN, CFG, s, b, fuel) == Ok(text)
  {
    hide EvalBody, ScopeOf, ParamsOf, Classify, EvalParams, BuiltinAct;
    var call := CallFor(KnownHelper(KnownName(b)), [V], VHash([]), b.program, b.inverse, s);
    assert [] + [text] == [text];
    assert EvalAct(PLAIN, CFG, s, call, b.program, None, [text], fuel - 1) == Ok(VStr(text));
    assert EvalProgram(PLAIN, CFG, body, EnterScene(PLAIN, s, a), a.params, fuel - 1) == Ok(text);
    assert EvalAct(PLAIN, CFG, s, call, b.program, None, [], fuel) == Ok(VStr(text));
    KnownBlockMeans(PLAIN, CFG, s, b, [V], VStr(text), fuel);
  }

  function LeafText(n: Naming): string {
    if n.BySlot? then "" else "v"
  }

  lemma LeafIs(n: Naming)
    ensures EvalBody(PLAIN, CFG, At2(n), IF_BODY.stmts, 0) == Ok(LeafText(n))
  {
    Frames();
    ScopesResolve();
    NamesArePlain();
    Lookups(n);
    ShowMeans(PLAIN, CFG, At2(n), "a", 0);
    SingleMeans(PLAIN, CFG, At2(n), Show("a"), 0, LeafText(n));
  }

  lemma {:induction false} IfIs(n: Naming)
    ensures EvalBody(PLAIN, CFG, At1(n), WITH_BODY.stmts, 1) == Ok(LeafText(n))
  {
    hide EvalBody, EvalStmt, ScopeOf, ParamsOf, Bound;
    Frames();
    ScopesResolve();
    Arguments(n, 1);
    LeafIs(n);
    var b := BlockOver("if", "a", IF_BODY);
    BlockOverIsKnown(S1, "if", "a", IF_BODY);
    var a := Render(false, V, None, None, None);
    RendersOnce(At1(n), b, NONE, IF_BODY, a, At2(n), 1, LeafText(n));
    SingleMeans(PLAIN, CFG, At1(n), b, 1, LeafText(n));
  }

  lemma {:induction false} WithIs(n: Naming)
    ensures EvalBody(PLAIN, CFG, At0(n), LOST.stmts, 2) == Ok(LeafText(n))
  {
    hide EvalBody, EvalStmt, ScopeOf, ParamsOf, Bound;
    Frames();
    ScopesResolve();
    Arguments(n, 2);
    IfIs(n);
    var b := BlockOver("with", "x", WITH_BODY);
    BlockOverIsKnown(S0, "with", "x", WITH_BODY);
    var a := Render(false, V, Some(VNull), Some(VArray([V])), None);
    assert At1(n).frames == F0 + [Frame(NAMED_A, a.params)];
    RendersOnce(At0(n), b, NAMED_A, WITH_BODY, a, At1(n), 2, LeafText(n));
    SingleMeans(PLAIN, CFG, At0(n), b, 2, LeafText(n));
  }

  /**
   A template the compiler accepts and whose run differs from its meaning under the built-in helpers: if
   hands over no parameters, so inside it a parameter of an enclosing block is looked for one place too far.
   */
  lemma {:induction false} LostParameter()
    ensures HasBuiltins(PLAIN, RT) && ProgramCompiles(CFG, [], LOST) && StraightProgram(CFG, LOST)
    ensures RunProgram(PLAIN, CFG, CompileProgram(CFG, [], LOST), Env([ROOT], VNull, [], []), 2) == Ok("")
    ensures EvalProgram(PLAIN, CFG, LOST, Scene([ROOT], VNull, [], [], ByName), None, 2) == Ok("v")
  {
    hide EvalBody, RunProgram;
    PlainHasBuiltins();
    LostCompiles();
    TemplateMeaning(PLAIN, CFG, LOST, ROOT, VNull, 2);
    WithIs(BySlot);
    WithIs(ByName);
    assert [] + [Frame(NONE, None)] == F0;
  }

  // ---- a block's own parameter is safe

  /** Used directly in the block that declares it, a parameter of with is found: the built-in theorem applies. */
  lemma {:induction false} KeptParameter(i: Interp, rt: Runtime, context: Value, data: Value, fuel: nat)
    requires HasBuiltins(i, rt)
    ensures SafeBy(CFG, BUILTIN_POLICY, [], [], KEPT, false)
    ensures SameText(i, CFG, KEPT, context, data, fuel)
  {
    hide SameText, SafeBy;
    KeptIsSafe();
    BuiltinMeaning(i, rt, CFG, KEPT, context, data, fuel);
  }

  const KEPT_BODY: Program := Program([Show("a")], Some("a"), None)

  lemma {:induction false} KeptIsSafe()
    ensures ProgramCompiles(CFG, [], KEPT) && StraightProgram(CFG, KEPT)
    ensures SafeBy(CFG, BUILTIN_POLICY, [], [], KEPT, false)
  {
    ScopesResolve();
    NamesArePlain();
    Compile(KEPT, [], S0);
    Compile(KEPT_BODY, S0, S1);
    BlockOverCompiles(S0, "with", "x", KEPT_BODY);
    ShowCompiles(CFG, S1, "a");
    BodyIsSafeInside();
    var b := BlockOver("with", "x", KEPT_BODY);
    WithIsSafe([] + [false]);
    WithIsSound([] + [false]);
    assert KEPT.stmts == [b] && [b][1..] == [];
  }

  lemma BodyIsSafeInside()
    ensures SafeBy(CFG, BUILTIN_POLICY, S0, [] + [false], KEPT_BODY, true)
  {
    ScopesResolve();
    NamesArePlain();
    ShowCompiles(CFG, S1, "a");
    assert Inner(S0, KEPT_BODY) == S1 && Finds([] + [false] + [true], 0);
    assert [Show("a")][1..] == [];
  }

  lemma WithIsSafe(given: seq<bool>)
    requires SafeBy(CFG, BUILTIN_POLICY, S0, given, KEPT_BODY, true)
    ensures StmtSafeBy(CFG, BUILTIN_POLICY, S0, given, BlockOver("with", "x", KEPT_BODY))
  {
    hide SafeBy;
    var b := BlockOver("with", "x", KEPT_BODY);
    ScopesResolve();
    BlockOverIsKnown(S0, "with", "x", KEPT_BODY);
    assert PolicyTerms(CFG, BUILTIN_POLICY, S0, b) == Terms(WITH_PARAMS, WITHOUT);
    assert OptionSafeBy(CFG, BUILTIN_POLICY, S0, given, b.program, WITH_PARAMS);
  }

  lemma WithIsSound(given: seq<bool>)
    ensures StmtSound(CFG, S0, given, BlockOver("with", "x", KEPT_BODY))
  {
    ScopesResolve();
    var b := BlockOver("with", "x", KEPT_BODY);
    BlockOverIsKnown(S0, "with", "x", KEPT_BODY);
    var e := b.call.args.params;
    assert e[1..] == [] && ParamsSound(CFG, S0, given, e[1..]) && ExprSound(CFG, S0, given, e[0]);
    assert ArgsSound(CFG, S0, given, b.call.args);
  }

  // ---- a partial that is called with its name and context exchanged

  const EXPLICIT: Config := CFG.(explicitPartialContext := true)
  const PICK: CallExpr := CallExpr(Name(NamePath("lookup")),
    Args([PathExpr(Path([], "this", 0, false)), LitExpr(StrLit("p"))], NoHash))
  const PICKED: Stmt := Partial(Dynamic(PICK), Args([], NoHash), None, "")

  /** {{> (lookup this "p")}} */
  const SWAPPED: Program := Program([PICKED], None, None)

  const NAMING: Value := VHash([Pair(HString("p", 0), VStr("q"))])
  function There(n: Naming): Scene { Scene([NAMING], VNull, F0, [], n) }

  lemma PickIsHelper(scope: Scope)
    ensures Classify(EXPLICIT, scope, PICK, true) == (if Resolve(scope, "lookup").Some? then Simple else Helper)
    ensures IsKnownHelper(EXPLICIT, HeadPath(PICK.head))
  {
    assert EXPLICIT.known("lookup");
    NotThis();
  }

  lemma NotThis()
    ensures PlainName("lookup")
  {
    var s := "lookup";
    var t := s[1..];
    var u := t[1..];
    assert s[..4][0] == 'l' && t[..4][0] == 'o' && u[..4][0] == 'o' && "this"[0] == 't';
    assert AfterThis(u[1..]).None?;
    assert AfterThis(u).None?;
    assert AfterThis(t).None?;
  }

  /** The computed name is q. */
  lemma {:induction false} PickedName(n: Naming, fuel: nat)
    ensures EvalCall(PLAIN, EXPLICIT, There(n), PICK, true, None, None, "", fuel) == Ok(VStr("q"))
  {
    hide ParamsOf, Bound;
    Frames();
    assert Resolve(S0, "lookup").None? by { assert S0[..0] == []; assert Resolve(S0[..0], "lookup").None?; }
    PickIsHelper(S0);
    var e := PICK.args.params;
    assert e[1..][1..] == [] && e[1..][0] == e[1];
    assert EvalPath(PLAIN, There(n), Path([], "this", 0, false), false) == Ok(NAMING);
    assert EvalParams(PLAIN, EXPLICIT, There(n), e[1..][1..], fuel) == Ok([]);
    assert [VStr("p")] + [] == [VStr("p")];
    assert EvalParams(PLAIN, EXPLICIT, There(n), e[1..], fuel) == Ok([VStr("p")]);
    assert [NAMING] + [VStr("p")] == [NAMING, VStr("p")];
    assert EvalParams(PLAIN, EXPLICIT, There(n), e, fuel) == Ok([NAMING, VStr("p")]);
    assert EvalHash(PLAIN, EXPLICIT, There(n), NoHash, fuel) == Ok(VHash([]));
    assert Member(NAMING, "p") == VStr("q");
    var call := CallFor(KnownHelper("lookup"), [NAMING, VStr("p")], VHash([]), None, None, There(n));
    assert PLAIN.act(call, []) == Return(VStr("q"));
    assert EvalAct(PLAIN, EXPLICIT, There(n), call, None, None, [], fuel) == Ok(VStr("q"));
    assert EvalKnown(PLAIN, EXPLICIT, There(n), "lookup", PICK.args, None, None, fuel) == Ok(VStr("q"));
  }

  lemma SwappedCompiles()
    ensures ProgramCompiles(EXPLICIT, [], SWAPPED)
  {
    assert Inner([], SWAPPED) == S0;
    PickIsHelper(S0);
    SingleStmt(EXPLICIT, S0, PICKED);
    var e := PICK.args.params;
    assert e[1..][1..] == [] && e[1..][0] == e[1];
    assert ParamsCompile(EXPLICIT, S0, e[1..][1..]) && ParamsCompile(EXPLICIT, S0, e[1..])
      && ParamsCompile(EXPLICIT, S0, e);
    assert ParamsCompile(EXPLICIT, S0, []);
  }

  /**
   Under explicit partial contexts, a partial whose name is looked up and whose context is left out: the
   template means the partial q, the run looks for a partial without a name and throws.
   */
  lemma {:induction false} SwappedTemplate(fuel: nat)
    ensures ProgramCompiles(EXPLICIT, [], SWAPPED)
    ensures RunProgram(PLAIN, EXPLICIT, CompileProgram(EXPLICIT, [], SWAPPED), Env([NAMING], VNull, [], []), fuel) ==
      Thrown
    ensures EvalProgram(PLAIN, EXPLICIT, SWAPPED, Scene([NAMING], VNull, [], [], ByName), None, fuel) == Ok("found")
  {
    hide Run, EvalCall, StmtOps, PartialOps;
    SwappedCompiles();
    Frames();
    PickedName(BySlot, fuel);
    PickedName(ByName, fuel);
    assert [] + F0 == F0 && View(There(BySlot)) == Env([NAMING], VNull, [], []);
    SwappedPartialMeaning(PLAIN, EXPLICIT, There(BySlot), [], PICKED, 0, EMPTY_STATE, fuel);
    PartialCalls(BySlot, fuel);
    PartialCalls(ByName, fuel);
    PickedMeans(fuel);
    SwappedRuns(fuel);
    assert [] + [Frame(NONE, None)] == F0;
  }

  lemma PickedMeans(fuel: nat)
    requires EvalCall(PLAIN, EXPLICIT, There(ByName), PICK, true, None, None, "", fuel) == Ok(VStr("q"))
    requires EvalPartialCall(PLAIN, EXPLICIT, There(ByName), PICKED, Some(VStr("q")), VNull, VHash([]), fuel) ==
      Ok("found")
    ensures EvalBody(PLAIN, EXPLICIT, There(ByName), [PICKED], fuel) == Ok("found")
  {
    hide EvalCall, EvalPartialCall;
    var s := There(ByName);
    assert EvalPartialName(PLAIN, EXPLICIT, s, PICKED.name, fuel) == Ok(Some(VStr("q")));
    assert EvalPartialContext(PLAIN, EXPLICIT, s, PICKED.args.params, fuel) == Ok(VNull);
    assert EvalHash(PLAIN, EXPLICIT, s, PICKED.args.hash, fuel) == Ok(VHash([]));
    assert EvalPartial(PLAIN, EXPLICIT, s, PICKED, fuel) == Ok("found");
    SingleMeans(PLAIN, EXPLICIT, s, PICKED, fuel, "found");
  }

  /** The call without a name throws, the call for q returns its text. */
  lemma PartialCalls(n: Naming, fuel: nat)
    ensures EvalPartialCall(PLAIN, EXPLICIT, There(n), PICKED, Some(VNull), VStr("q"), VHash([]), fuel) == Thrown
    ensures EvalPartialCall(PLAIN, EXPLICIT, There(n), PICKED, Some(VStr("q")), VNull, VHash([]), fuel) == Ok("found")
  {
  }

  lemma SwappedRuns(fuel: nat)
    requires Run(PLAIN, EXPLICIT, [], PartialOps(EXPLICIT, S0, PICKED, 0), EMPTY_STATE, View(There(BySlot)), fuel) ==
      Thrown
    ensures RunProgram(PLAIN, EXPLICIT, CompileProgram(EXPLICIT, [], SWAPPED), View(There(BySlot)), fuel) == Thrown
  {
    SingleStmt(EXPLICIT, S0, PICKED);
    assert Inner([], SWAPPED) == S0;
    assert CompileProgram(EXPLICIT, [], SWAPPED).ops == PartialOps(EXPLICIT, S0, PICKED, 0);
    assert CompileProgram(EXPLICIT, [], SWAPPED).kids == [];
  }
}

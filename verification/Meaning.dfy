/** Running compiled opcodes does what the syntax tree means. */
module Meaning {
  import opened Options
  import opened AssocList
  import opened Ast
  import opened CodeGen
  import opened Vm
  import opened Eval

  // ---- machine runs

  lemma {:induction false} RunConcat(i: Interp, cfg: Config, kids: seq<Prog>, a: seq<Op>, b: seq<Op>, st: State,
      env: Env, fuel: nat)
    ensures var r := Run(i, cfg, kids, a, st, env, fuel);
      Run(i, cfg, kids, a + b, st, env, fuel) == if r.Ok? then Run(i, cfg, kids, b, r.value, env, fuel) else r
    decreases |a|
  {
    if a == [] {
      assert a + b == b;
    } else {
      assert (a + b)[1..] == a[1..] + b;
      var r := Step(i, cfg, kids, a[0], st, env, fuel);
      if r.Ok? {
        RunConcat(i, cfg, kids, a[1..], b, r.value, env, fuel);
      }
    }
  }

  lemma RunOne(i: Interp, cfg: Config, kids: seq<Prog>, op: Op, st: State, env: Env, fuel: nat)
    ensures Run(i, cfg, kids, [op], st, env, fuel) == Step(i, cfg, kids, op, st, env, fuel)
  {
    assert [op][1..] == [];
  }

  /** r pushed exactly the values on st, or failed the way they did. */
  ghost predicate Pushed(r: Result<State>, st: State, vs: Result<seq<Value>>) {
    match vs
    case Ok(xs) => r.Ok? && r.value.stack == st.stack + xs && r.value.hashes == st.hashes && r.value.buffer == st.buffer
    case _ => r == vs.PropagateFailure()
  }

  function One(v: Result<Value>): Result<seq<Value>> {
    if v.Ok? then Ok([v.value]) else v.PropagateFailure()
  }

  lemma PathMeaning(i: Interp, cfg: Config, s: Scene, kids: seq<Prog>, p: Path, strict: bool, falsy: bool, st: State,
      fuel: nat)
    requires s.naming.BySlot?
    ensures Pushed(Run(i, cfg, kids, PathOps(ScopeOf(s.frames), p, strict, falsy), st, View(s), fuel), st,
      One(EvalPath(i, s, p, strict)))
  {
    var ops := PathOps(ScopeOf(s.frames), p, strict, falsy);
    assert ops[1..] == [ops[1]];
    RunOne(i, cfg, kids, ops[1], st.(context := ContextAt(View(s), p.depth)), View(s), fuel);
  }

  lemma PopOptionsOf(rest: seq<Value>, args: seq<Value>, g: Option<nat>, ig: Option<nat>, hash: Value)
    ensures PopOptions(rest + args + [GuidValue(g), GuidValue(ig)] + [hash], |args|) ==
      Ok(CallOptions(rest, args, hash, g, ig))
  {
    var stack := rest + args + [GuidValue(g), GuidValue(ig)] + [hash];
    var n := |stack|;
    assert stack[..n - 3 - |args|] == rest;
    assert stack[n - 3 - |args|..n - 3] == args;
  }

  lemma PairMeaning(i: Interp, cfg: Config, kids: seq<Prog>, g: Option<nat>, ig: Option<nat>, st: State, env: Env,
      fuel: nat)
    ensures Run(i, cfg, kids, PairOps(g, ig), st, env, fuel) ==
      Ok(st.(stack := st.stack + [GuidValue(g), GuidValue(ig)]))
  {
    assert PairOps(g, ig)[1..] == [PushProgram(ig)];
    RunOne(i, cfg, kids, PushProgram(ig), st.(stack := st.stack + [GuidValue(g)]), env, fuel);
    assert st.stack + [GuidValue(g)] + [GuidValue(ig)] == st.stack + [GuidValue(g), GuidValue(ig)];
  }

  /** Values pushed forwards, keys assigned backwards: the hash on top becomes the dictionary of the literal. */
  lemma {:induction false} AssignMeaning(i: Interp, cfg: Config, kids: seq<Prog>, pairs: seq<HashPair>, vs: seq<Value>,
      base: seq<Value>, hs: seq<seq<Pair<Value>>>, st: State, env: Env, fuel: nat)
    requires |pairs| == |vs| && st.stack == base + vs && st.hashes == hs + [[]]
    ensures Run(i, cfg, kids, AssignOps(pairs), st, env, fuel) ==
      Ok(st.(stack := base, hashes := hs + [Dictionary(i, pairs, vs)]))
    decreases |pairs|
  {
    if pairs == [] {
      assert base + vs == base;
    } else {
      assert base + vs == (base + [vs[0]]) + vs[1..];
      AssignMeaning(i, cfg, kids, pairs[1..], vs[1..], base + [vs[0]], hs, st, env, fuel);
      var mid := st.(stack := base + [vs[0]], hashes := hs + [Dictionary(i, pairs[1..], vs[1..])]);
      RunConcat(i, cfg, kids, AssignOps(pairs[1..]), [AssignToHash(pairs[0].key)], st, env, fuel);
      RunOne(i, cfg, kids, AssignToHash(pairs[0].key), mid, env, fuel);
      assert Pop(mid.stack) == base && Pop(mid.hashes) == hs;
    }
  }

  /** The first pair of a literal that has a key decides its value. */
  lemma {:induction false} EarliestKeyWins(i: Interp, pairs: seq<HashPair>, vs: seq<Value>, n: nat)
    requires |pairs| == |vs| && n < |pairs|
    requires forall m :: 0 <= m < n ==> !HbsString.Eq(KeyOf(i, pairs[m].key), KeyOf(i, pairs[n].key))
    ensures Find(Dictionary(i, pairs, vs), KeyOf(i, pairs[n].key)) == Some(vs[n])
  {
    var k := KeyOf(i, pairs[n].key);
    FindAfterPut(Dictionary(i, pairs[1..], vs[1..]), KeyOf(i, pairs[0].key), vs[0], k);
    if n > 0 {
      assert !HbsString.Eq(KeyOf(i, pairs[0].key), k);
      assert forall m :: 0 <= m < n - 1 ==> pairs[1..][m] == pairs[m + 1];
      EarliestKeyWins(i, pairs[1..], vs[1..], n - 1);
    }
  }

  // ---- child programs

  /** kids holds the compiled form of p at its number. */
  ghost predicate KidAt(cfg: Config, scope: Scope, kids: seq<Prog>, g: Option<nat>, p: Option<Program>) {
    && (g.Some? <==> p.Some?)
    && (p.Some? ==> g.value < |kids| && kids[g.value] == CompileProgram(cfg, scope, p.value))
  }

  /** A partial whose name is computed and whose context is left out, under explicitPartialContext. */
  predicate Swapped(cfg: Config, s: Stmt) {
    s.Partial? && s.name.Dynamic? && s.args.params == [] && cfg.explicitPartialContext
  }

  predicate StraightOption(cfg: Config, p: Option<Program>)
    decreases p, 1
  {
    p.Some? ==> StraightProgram(cfg, p.value)
  }

  predicate StraightStmt(cfg: Config, s: Stmt)
    decreases s, 1
  {
    match s
    case Block(_, program, inverse, _, _) => StraightOption(cfg, program) && StraightOption(cfg, inverse)
    case Partial(_, _, program, _) => !Swapped(cfg, s) && StraightOption(cfg, program)
    case _ => true
  }

  predicate StraightBody(cfg: Config, stmts: seq<Stmt>)
    decreases stmts, 0
  {
    stmts == [] || (StraightStmt(cfg, stmts[0]) && StraightBody(cfg, stmts[1..]))
  }

  /** No partial in the template has its name and its context swapped. */
  predicate StraightProgram(cfg: Config, p: Program)
    decreases p, 0
  {
    StraightBody(cfg, p.stmts)
  }

  /** What the theorem asks of a program. */
  ghost predicate Good(cfg: Config, frames: seq<Frame>, p: Program) {
    StraightProgram(cfg, p) && ProgramCompiles(cfg, ScopeOf(frames), p)
  }

  ghost predicate GoodOption(cfg: Config, frames: seq<Frame>, p: Option<Program>) {
    p.Some? ==> Good(cfg, frames, p.value)
  }

  lemma ScopeOfInner(frames: seq<Frame>, p: Program, params: Option<Value>)
    ensures ScopeOf(frames + [Frame(Names(p.param1, p.param2), params)]) == Inner(ScopeOf(frames), p)
  {
  }

  lemma ViewOfInner(i: Interp, s: Scene, a: Action, names: Names)
    requires a.Render?
    ensures var inner := EnterScene(i, s, a);
      View(inner.(frames := inner.frames + [Frame(names, a.params)])) == Enter(i, View(s), a)
  {
    var inner := EnterScene(i, s, a);
    var frames := s.frames + [Frame(names, a.params)];
    assert frames[..|frames| - 1] == s.frames;
    assert ParamsOf(frames) == ParamsOf(s.frames) + (if a.params.Some? then [a.params.value] else []);
  }

  // ---- the theorem, node by node

  /** Program g of the compiled parent renders, with less fuel, exactly what block p evaluates to. */
  ghost predicate Agrees(i: Interp, cfg: Config, s: Scene, kids: seq<Prog>, g: Option<nat>, p: Option<Program>,
      fuel: nat) {
    && (g.Some? <==> p.Some?)
    && (p.Some? ==> g.value < |kids| && RendersAlike(i, cfg, s, kids[g.value], p.value, fuel))
  }

  ghost predicate RendersAlike(i: Interp, cfg: Config, s: Scene, compiled: Prog, p: Program, fuel: nat) {
    forall a: Action, f: nat :: f < fuel && a.Render? ==>
      RunProgram(i, cfg, compiled, Enter(i, View(s), a), f) == EvalProgram(i, cfg, p, EnterScene(i, s, a), a.params, f)
  }

  lemma AgreesBelow(i: Interp, cfg: Config, s: Scene, kids: seq<Prog>, g: Option<nat>, p: Option<Program>, fuel: nat)
    requires Agrees(i, cfg, s, kids, g, p, fuel) && fuel > 0
    ensures Agrees(i, cfg, s, kids, g, p, fuel - 1)
  {
    hide RunProgram, EvalProgram;
  }

  lemma AgreesOn(i: Interp, cfg: Config, s: Scene, kids: seq<Prog>, g: Option<nat>, p: Option<Program>, a: Action,
      fuel: nat)
    requires Agrees(i, cfg, s, kids, g, p, fuel) && a.Render? && fuel > 0
    ensures g.Some? <==> p.Some?
    ensures p.Some? ==> g.value < |kids|
    ensures p.Some? ==>
      RunProgram(i, cfg, kids[g.value], Enter(i, View(s), a), fuel - 1) ==
      EvalProgram(i, cfg, p.value, EnterScene(i, s, a), a.params, fuel - 1)
  {
    hide RunProgram, EvalProgram;
  }

  lemma {:induction false} ActMeaning(i: Interp, cfg: Config, s: Scene, kids: seq<Prog>, call: Call,
      program: Option<Program>, inverse: Option<Program>, g: Option<nat>, ig: Option<nat>,
        texts: seq<string>, fuel: nat)
    requires call.env == View(s)
    requires Agrees(i, cfg, s, kids, g, program, fuel)
      && Agrees(i, cfg, s, kids, ig, inverse, fuel)
    ensures RunCall(i, cfg, kids, call, g, ig, texts, fuel) == EvalAct(i, cfg, s, call, program, inverse, texts, fuel)
    decreases fuel
  {
    hide RunProgram, EvalProgram, View, Enter, EnterScene, Agrees, RendersAlike;
    var a := i.act(call, texts);
    if a.Render? && fuel > 0 {
      var which, k := if a.inverse then inverse else program, if a.inverse then ig else g;
      AgreesBelow(i, cfg, s, kids, g, program, fuel);
      AgreesBelow(i, cfg, s, kids, ig, inverse, fuel);
      AgreesOn(i, cfg, s, kids, k, which, a, fuel);
      if which.Some? {
        var text := RunProgram(i, cfg, kids[k.value], Enter(i, View(s), a), fuel - 1);
        if text.Ok? {
          ActMeaning(i, cfg, s, kids, call, program, inverse, g, ig, texts + [text.value], fuel - 1);
        }
      } else {
        ActMeaning(i, cfg, s, kids, call, program, inverse, g, ig, texts + [""], fuel - 1);
      }
    }
  }

  lemma {:induction false} ExprMeaning(i: Interp, cfg: Config, s: Scene, kids: seq<Prog>, e: Expr, st: State, fuel: nat)
    requires s.naming.BySlot?
    ensures Pushed(Run(i, cfg, kids, ExprOps(cfg, ScopeOf(s.frames), e), st, View(s), fuel), st,
      One(EvalExpr(i, cfg, s, e, fuel)))
    decreases fuel, 2, e, 0
  {
    match e
    case PathExpr(p) => PathMeaning(i, cfg, s, kids, p, false, false, st, fuel);
    case LitExpr(l) => RunOne(i, cfg, kids, LiteralOp(cfg, l), st, View(s), fuel);
    case SubExpr(call) => CallMeaning(i, cfg, s, kids, call, true, None, None, None, None, "", st, fuel);
  }

  lemma {:induction false} ParamsMeaning(i: Interp, cfg: Config, s: Scene, kids: seq<Prog>, params: seq<Expr>,
      st: State, fuel: nat)
    requires s.naming.BySlot?
    ensures Pushed(Run(i, cfg, kids, ParamsOps(cfg, ScopeOf(s.frames), params), st, View(s), fuel), st,
      EvalParams(i, cfg, s, params, fuel))
    decreases fuel, 2, params, 0
  {
    if params == [] {
      assert st.stack + [] == st.stack;
    } else {
      var a, b := ExprOps(cfg, ScopeOf(s.frames), params[0]), ParamsOps(cfg, ScopeOf(s.frames), params[1..]);
      RunConcat(i, cfg, kids, a, b, st, View(s), fuel);
      ExprMeaning(i, cfg, s, kids, params[0], st, fuel);
      var r := Run(i, cfg, kids, a, st, View(s), fuel);
      if r.Ok? {
        ParamsMeaning(i, cfg, s, kids, params[1..], r.value, fuel);
        PushTwice(st.stack, EvalExpr(i, cfg, s, params[0], fuel), EvalParams(i, cfg, s, params[1..], fuel));
      }
    }
  }

  lemma PushTwice(stack: seq<Value>, v: Result<Value>, vs: Result<seq<Value>>)
    ensures v.Ok? && vs.Ok? ==> stack + [v.value] + vs.value == stack + ([v.value] + vs.value)
  {
  }

  lemma {:induction false} ValuesMeaning(i: Interp, cfg: Config, s: Scene, kids: seq<Prog>, pairs: seq<HashPair>,
      st: State, fuel: nat)
    requires s.naming.BySlot?
    ensures Pushed(Run(i, cfg, kids, ValuesOps(cfg, ScopeOf(s.frames), pairs), st, View(s), fuel), st,
      EvalValues(i, cfg, s, pairs, fuel))
    decreases fuel, 2, pairs, 0
  {
    if pairs == [] {
      assert st.stack + [] == st.stack;
    } else {
      var a, b := ExprOps(cfg, ScopeOf(s.frames), pairs[0].value), ValuesOps(cfg, ScopeOf(s.frames), pairs[1..]);
      RunConcat(i, cfg, kids, a, b, st, View(s), fuel);
      ExprMeaning(i, cfg, s, kids, pairs[0].value, st, fuel);
      var r := Run(i, cfg, kids, a, st, View(s), fuel);
      if r.Ok? {
        ValuesMeaning(i, cfg, s, kids, pairs[1..], r.value, fuel);
        PushTwice(st.stack, EvalExpr(i, cfg, s, pairs[0].value, fuel), EvalValues(i, cfg, s, pairs[1..], fuel));
      }
    }
  }

  lemma {:induction false} HashMeaning(i: Interp, cfg: Config, s: Scene, kids: seq<Prog>, hash: Hash, omitEmpty: bool,
      st: State, fuel: nat)
    requires s.naming.BySlot?
    ensures Pushed(Run(i, cfg, kids, HashArgOps(cfg, ScopeOf(s.frames), hash, omitEmpty), st, View(s), fuel), st,
      One(EvalHash(i, cfg, s, hash, fuel)))
    decreases fuel, 2, hash, 1
  {
    hide ValuesOps, AssignOps, EvalValues, Run, View, Dictionary;
    match hash
    case NoHash => RunOne(i, cfg, kids, EmptyHash(omitEmpty), st, View(s), fuel);
    case Hash(pairs) =>
      var env := View(s);
      var raised := st.(hashes := st.hashes + [[]]);
      ValuesMeaning(i, cfg, s, kids, pairs, raised, fuel);
      HashRuns(i, cfg, kids, ScopeOf(s.frames), pairs, st, env, fuel, EvalValues(i, cfg, s, pairs, fuel));
  }

  /** Around the values: a new hash is begun, the keys are assigned, and the hash is pushed. */
  lemma HashRuns(i: Interp, cfg: Config, kids: seq<Prog>, scope: Scope, pairs: seq<HashPair>, st: State, env: Env,
      fuel: nat, values: Result<seq<Value>>)
    requires values.Ok? ==> |values.value| == |pairs|
    requires Pushed(Run(i, cfg, kids, ValuesOps(cfg, scope, pairs), st.(hashes := st.hashes + [[]]), env, fuel),
      st.(hashes := st.hashes + [[]]), values)
    ensures Pushed(Run(i, cfg, kids, HashOps(cfg, scope, pairs), st, env, fuel), st,
      if values.Ok? then Ok([VHash(Dictionary(i, pairs, values.value))]) else values.PropagateFailure())
  {
    hide ValuesOps, AssignOps, Dictionary;
    var a, b := ValuesOps(cfg, scope, pairs), AssignOps(pairs);
    var raised := st.(hashes := st.hashes + [[]]);
    RunConcat(i, cfg, kids, [PushHash] + a + b, [PopHash], st, env, fuel);
    RunConcat(i, cfg, kids, [PushHash] + a, b, st, env, fuel);
    RunConcat(i, cfg, kids, [PushHash], a, st, env, fuel);
    RunOne(i, cfg, kids, PushHash, st, env, fuel);
    var r := Run(i, cfg, kids, a, raised, env, fuel);
    if r.Ok? {
      AssignMeaning(i, cfg, kids, pairs, values.value, st.stack, st.hashes, r.value, env, fuel);
      var built := r.value.(stack := st.stack, hashes := st.hashes + [Dictionary(i, pairs, values.value)]);
      RunOne(i, cfg, kids, PopHash, built, env, fuel);
      assert Pop(built.hashes) == st.hashes;
    }
  }

  /** The operands of a call, in the order they lie on the stack. */
  function SetupValues(i: Interp, cfg: Config, s: Scene, args: Args, g: Option<nat>, ig: Option<nat>,
      fuel: nat): Result<seq<Value>> {
    var vs :- EvalParams(i, cfg, s, args.params, fuel);
    var h :- EvalHash(i, cfg, s, args.hash, fuel);
    Ok(vs + [GuidValue(g), GuidValue(ig)] + [h])
  }

  lemma {:induction false} SetupMeaning(i: Interp, cfg: Config, s: Scene, kids: seq<Prog>, args: Args,
      g: Option<nat>, ig: Option<nat>, omitEmpty: bool, st: State, fuel: nat)
    requires s.naming.BySlot?
    ensures Pushed(Run(i, cfg, kids, SetupOps(cfg, ScopeOf(s.frames), args, g, ig, omitEmpty), st, View(s), fuel), st,
      SetupValues(i, cfg, s, args, g, ig, fuel))
    decreases fuel, 2, args, 0
  {
    var env := View(s);
    var a, b := ParamsOps(cfg, ScopeOf(s.frames), args.params), HashArgOps(cfg, ScopeOf(s.frames), args.hash,
      omitEmpty);
    RunConcat(i, cfg, kids, a + PairOps(g, ig), b, st, env, fuel);
    RunConcat(i, cfg, kids, a, PairOps(g, ig), st, env, fuel);
    ParamsMeaning(i, cfg, s, kids, args.params, st, fuel);
    var r := Run(i, cfg, kids, a, st, env, fuel);
    if r.Ok? {
      var vs := EvalParams(i, cfg, s, args.params, fuel).value;
      PairMeaning(i, cfg, kids, g, ig, r.value, env, fuel);
      var paired := r.value.(stack := r.value.stack + [GuidValue(g), GuidValue(ig)]);
      HashMeaning(i, cfg, s, kids, args.hash, omitEmpty, paired, fuel);
      assert st.stack + vs + [GuidValue(g), GuidValue(ig)] == st.stack + (vs + [GuidValue(g), GuidValue(ig)]);
      var h := EvalHash(i, cfg, s, args.hash, fuel);
      if h.Ok? {
        assert st.stack + (vs + [GuidValue(g), GuidValue(ig)]) + [h.value] == st.stack +
          (vs + [GuidValue(g), GuidValue(ig)] + [h.value]);
      }
    }
  }

  /** A call that runs with the operands of args on the stack, below an optional extra value. */
  lemma SplitOperands(st: State, rest: seq<Value>, vs: seq<Value>, g: Option<nat>, ig: Option<nat>, h: Value)
    requires st.stack == rest + (vs + [GuidValue(g), GuidValue(ig)] + [h])
    ensures PopOptions(st.stack, |vs|) == Ok(CallOptions(rest, vs, h, g, ig))
  {
    assert st.stack == rest + vs + [GuidValue(g), GuidValue(ig)] + [h];
    PopOptionsOf(rest, vs, g, ig, h);
  }

  /** The call made with operands on the stack: the machine's result is the callee's. */
  lemma KnownHelperStep(i: Interp, cfg: Config, s: Scene, kids: seq<Prog>, name: string, vs: seq<Value>, h: Value,
      program: Option<Program>, inverse: Option<Program>, g: Option<nat>, ig: Option<nat>,
        below: seq<Value>, st: State, fuel: nat)
    requires Agrees(i, cfg, s, kids, g, program, fuel)
      && Agrees(i, cfg, s, kids, ig, inverse, fuel)
    requires st.stack == below + (vs + [GuidValue(g), GuidValue(ig)] + [h])
    ensures var called := EvalAct(i, cfg, s, CallFor(Kind.KnownHelper(name), vs, h, program, inverse, s), program,
      inverse, [], fuel);
      var r := Step(i, cfg, kids, InvokeKnownHelper(|vs|, name), st, View(s), fuel);
      if !i.hasHelper(name) then r == Thrown
      else if called.Ok? then r == Ok(st.(stack := below + [called.value])) else r == called.PropagateFailure()
  {
    hide EvalAct, RunCall, RendersAlike, ScopeOf, ParamsOf, PopOptions;
    SplitOperands(st, below, vs, g, ig, h);
    ActMeaning(i, cfg, s, kids, CallFor(Kind.KnownHelper(name), vs, h, program, inverse, s), program, inverse, g, ig,
      [], fuel);
  }

  lemma HelperStep(i: Interp, cfg: Config, s: Scene, kids: seq<Prog>, name: string, simple: bool, v: Value,
      vs: seq<Value>, h: Value,
      program: Option<Program>, inverse: Option<Program>, g: Option<nat>, ig: Option<nat>,
        below: seq<Value>, st: State, fuel: nat)
    requires Agrees(i, cfg, s, kids, g, program, fuel)
      && Agrees(i, cfg, s, kids, ig, inverse, fuel)
    requires st.stack == below + (vs + [GuidValue(g), GuidValue(ig)] + [h]) + [v]
    ensures var called := EvalAct(i, cfg, s, CallFor(HelperCall(name, simple, v), vs, h, program, inverse, s), program,
      inverse, [], fuel);
      var r := Step(i, cfg, kids, InvokeHelper(|vs|, name, simple), st, View(s), fuel);
      if called.Ok? then r == Ok(st.(stack := below + [called.value])) else r == called.PropagateFailure()
  {
    hide EvalAct, RunCall, RendersAlike, ScopeOf, ParamsOf, PopOptions;
    assert Pop(st.stack) == below + (vs + [GuidValue(g), GuidValue(ig)] + [h]);
    SplitOperands(st.(stack := Pop(st.stack)), below, vs, g, ig, h);
    ActMeaning(i, cfg, s, kids, CallFor(HelperCall(name, simple, v), vs, h, program, inverse, s), program, inverse, g,
      ig, [], fuel);
  }

  lemma {:induction false} KnownHelperMeaning(i: Interp, cfg: Config, s: Scene, kids: seq<Prog>, call: CallExpr,
      program: Option<Program>, inverse: Option<Program>, g: Option<nat>, ig: Option<nat>, st: State,
        fuel: nat)
    requires s.naming.BySlot?
    requires Agrees(i, cfg, s, kids, g, program, fuel)
      && Agrees(i, cfg, s, kids, ig, inverse, fuel)
    requires HeadPath(call.head).parts != []
    ensures var name := HeadPath(call.head).parts[0];
      Pushed(
        Run(i, cfg, kids, SetupOps(cfg, ScopeOf(s.frames), call.args, g, ig, false) +
          [InvokeKnownHelper(|call.args.params|, name)], st, View(s), fuel),
        st, One(EvalKnown(i, cfg, s, name, call.args, program, inverse, fuel)))
    decreases fuel, 2, call, 0
  {
    hide Step, Run, View, Agrees, CallFor, SetupOps, EvalAct, HeadPath, ScopeOf;
    var env, name := View(s), HeadPath(call.head).parts[0];
    var setup := SetupOps(cfg, ScopeOf(s.frames), call.args, g, ig, false);
    var op := InvokeKnownHelper(|call.args.params|, name);
    RunConcat(i, cfg, kids, setup, [op], st, env, fuel);
    SetupMeaning(i, cfg, s, kids, call.args, g, ig, false, st, fuel);
    var r := Run(i, cfg, kids, setup, st, env, fuel);
    if r.Ok? {
      var vs, h := EvalParams(i, cfg, s, call.args.params, fuel).value, EvalHash(i, cfg, s, call.args.hash, fuel).value;
      RunOne(i, cfg, kids, op, r.value, env, fuel);
      KnownHelperStep(i, cfg, s, kids, name, vs, h, program, inverse, g, ig, st.stack, r.value, fuel);
    }
  }

  /** A call of a helper that is not known in advance: its name is looked up last. */
  lemma {:induction false} HelperMeaning(i: Interp, cfg: Config, s: Scene, kids: seq<Prog>, call: CallExpr,
      program: Option<Program>, inverse: Option<Program>, g: Option<nat>, ig: Option<nat>, st: State,
        fuel: nat)
    requires s.naming.BySlot?
    requires s.naming.BySlot?
    requires Agrees(i, cfg, s, kids, g, program, fuel)
      && Agrees(i, cfg, s, kids, ig, inverse, fuel)
    ensures var p := HeadPath(call.head);
      Pushed(
        Run(i, cfg, kids, SetupOps(cfg, ScopeOf(s.frames), call.args, g, ig, false) +
          (PathOps(ScopeOf(s.frames), p, true, true) + [InvokeHelper(|call.args.params|, p.original, SimpleId(p))]), st,
            View(s), fuel),
        st, One(EvalUnknown(i, cfg, s, p, call.args, program, inverse, fuel)))
    decreases fuel, 2, call, 0
  {
    hide Step, Run, View, Agrees, CallFor, PathOps, SetupOps, EvalPath, EvalAct, HeadPath,
      ScopeOf, SimpleId;
    var env, p := View(s), HeadPath(call.head);
    var setup := SetupOps(cfg, ScopeOf(s.frames), call.args, g, ig, false);
    var path, op := PathOps(ScopeOf(s.frames), p, true, true), InvokeHelper(|call.args.params|, p.original,
      SimpleId(p));
    RunConcat(i, cfg, kids, setup, path + [op], st, env, fuel);
    SetupMeaning(i, cfg, s, kids, call.args, g, ig, false, st, fuel);
    var r := Run(i, cfg, kids, setup, st, env, fuel);
    if r.Ok? {
      var vs, h := EvalParams(i, cfg, s, call.args.params, fuel).value, EvalHash(i, cfg, s, call.args.hash, fuel).value;
      RunConcat(i, cfg, kids, path, [op], r.value, env, fuel);
      PathMeaning(i, cfg, s, kids, p, true, true, r.value, fuel);
      var looked := Run(i, cfg, kids, path, r.value, env, fuel);
      if looked.Ok? {
        var v := EvalPath(i, s, p, true).value;
        RunOne(i, cfg, kids, op, looked.value, env, fuel);
        HelperStep(i, cfg, s, kids, p.original, SimpleId(p), v, vs, h, program, inverse, g, ig, st.stack,
          looked.value, fuel);
      }
    }
  }

  lemma {:induction false} SimpleMeaning(i: Interp, cfg: Config, s: Scene, kids: seq<Prog>, p: Path, st: State,
      fuel: nat)
    requires s.naming.BySlot?
    ensures Pushed(Run(i, cfg, kids, PathOps(ScopeOf(s.frames), p, true, false) + [ResolvePossibleLambda], st, View(s),
      fuel), st,
      One(EvalResolved(i, cfg, s, p, fuel)))
    decreases fuel, 1
  {
    var env, path := View(s), PathOps(ScopeOf(s.frames), p, true, false);
    RunConcat(i, cfg, kids, path, [ResolvePossibleLambda], st, env, fuel);
    PathMeaning(i, cfg, s, kids, p, true, false, st, fuel);
    var r := Run(i, cfg, kids, path, st, env, fuel);
    if r.Ok? {
      RunOne(i, cfg, kids, ResolvePossibleLambda, r.value, env, fuel);
      var v := EvalPath(i, s, p, true).value;
      assert Pop(r.value.stack) == st.stack;
      ActMeaning(i, cfg, s, kids, CallFor(LambdaCall(v), [ContextAt(env, 0)], VNull, None, None, s), None, None, None,
        None, [], fuel);
    }
  }

  lemma {:induction false} AmbiguousMeaning(i: Interp, cfg: Config, s: Scene, kids: seq<Prog>, p: Path, text: string,
      program: Option<Program>, inverse: Option<Program>, g: Option<nat>, ig: Option<nat>, st: State,
        fuel: nat)
    requires s.naming.BySlot?
    requires Agrees(i, cfg, s, kids, g, program, fuel)
      && Agrees(i, cfg, s, kids, ig, inverse, fuel)
    requires p.parts != []
    ensures var t := if cfg.mustacheLambdas then Some(text) else None;
      var r := Run(i, cfg, kids, [GetContext(p.depth)] + PairOps(g, ig) + PathOps(ScopeOf(s.frames), p, true, false) +
          [InvokeAmbiguous(p.parts[0], g.Some? || ig.Some?, t)], st, View(s), fuel);
      && Pushed(r, st, One(EvalAmbiguous(i, cfg, s, p, text, program, inverse, fuel)))
      && (r.Ok? ==> EvalPath(i, s, p, true).Ok? && r.value.lastHelper == HelperNote(i, cfg, p.parts[0],
        EvalPath(i, s, p, true).value))
    decreases fuel, 1
  {
    hide View, PathOps, PairOps, EvalAct, RendersAlike, Step, ScopeOf, HelperNote, OrLookedUp;
    var env, path := View(s), PathOps(ScopeOf(s.frames), p, true, false);
    var t := if cfg.mustacheLambdas then Some(text) else None;
    var op := InvokeAmbiguous(p.parts[0], g.Some? || ig.Some?, t);
    var front := [GetContext(p.depth)] + PairOps(g, ig);
    RunConcat(i, cfg, kids, front + path, [op], st, env, fuel);
    AmbiguousOperands(i, cfg, s, kids, p, g, ig, st, fuel);
    var r := Run(i, cfg, kids, front + path, st, env, fuel);
    if r.Ok? {
      RunOne(i, cfg, kids, op, r.value, env, fuel);
      AmbiguousInvoked(i, cfg, s, kids, p, t, program, inverse, g, ig, st.stack, EvalPath(i, s, p, true).value,
        r.value, fuel);
    }
  }

  lemma AmbiguousOperands(i: Interp, cfg: Config, s: Scene, kids: seq<Prog>, p: Path, g: Option<nat>, ig: Option<nat>,
      st: State, fuel: nat)
    requires s.naming.BySlot?
    ensures var v := EvalPath(i, s, p, true);
      Pushed(Run(i, cfg, kids, [GetContext(p.depth)] + PairOps(g, ig) + PathOps(ScopeOf(s.frames), p, true, false), st,
        View(s), fuel), st,
        if v.Ok? then Ok([GuidValue(g), GuidValue(ig)] + [v.value]) else v.PropagateFailure())
  {
    var env, path := View(s), PathOps(ScopeOf(s.frames), p, true, false);
    RunConcat(i, cfg, kids, [GetContext(p.depth)] + PairOps(g, ig), path, st, env, fuel);
    RunConcat(i, cfg, kids, [GetContext(p.depth)], PairOps(g, ig), st, env, fuel);
    RunOne(i, cfg, kids, GetContext(p.depth), st, env, fuel);
    var at := st.(context := ContextAt(env, p.depth));
    PairMeaning(i, cfg, kids, g, ig, at, env, fuel);
    var paired := at.(stack := at.stack + [GuidValue(g), GuidValue(ig)]);
    PathMeaning(i, cfg, s, kids, p, true, false, paired, fuel);
    var v := EvalPath(i, s, p, true);
    if v.Ok? {
      assert st.stack + [GuidValue(g), GuidValue(ig)] + [v.value] == st.stack +
        ([GuidValue(g), GuidValue(ig)] + [v.value]);
    }
  }

  lemma AmbiguousInvoked(i: Interp, cfg: Config, s: Scene, kids: seq<Prog>, p: Path, t: Option<string>,
      program: Option<Program>, inverse: Option<Program>, g: Option<nat>, ig: Option<nat>,
        below: seq<Value>, v: Value, st: State, fuel: nat)
    requires Agrees(i, cfg, s, kids, g, program, fuel)
      && Agrees(i, cfg, s, kids, ig, inverse, fuel)
    requires p.parts != [] && st.stack == below + ([GuidValue(g), GuidValue(ig)] + [v])
    ensures var isBlock := g.Some? || ig.Some?;
      var r := Step(i, cfg, kids, InvokeAmbiguous(p.parts[0], isBlock, t), st, View(s), fuel);
      var called := EvalAct(i, cfg, s, CallFor(AmbiguousCall(p.parts[0], v, isBlock, t), [], VHash([]), program,
        inverse, s), program, inverse, [], fuel);
      if called.Ok?
      then r == Ok(st.(stack := below + [OrLookedUp(i, cfg, called.value, v, isBlock, t)], lastHelper :=
        HelperNote(i, cfg, p.parts[0], v)))
      else r == called.PropagateFailure()
  {
    hide EvalAct, RunCall, RendersAlike, View;
    assert Pop(st.stack) + [VHash([])] == below + [] + [GuidValue(g), GuidValue(ig)] + [VHash([])];
    PopOptionsOf(below, [], g, ig, VHash([]));
    ActMeaning(i, cfg, s, kids, CallFor(AmbiguousCall(p.parts[0], v, g.Some? || ig.Some?, t), [], VHash([]), program,
      inverse, s),
      program, inverse, g, ig, [], fuel);
  }

  /** From any stack, the opcodes of a call push exactly the value the call has. */
  lemma {:induction false} CallMeaning(i: Interp, cfg: Config, s: Scene, kids: seq<Prog>, call: CallExpr, sub: bool,
      program: Option<Program>, inverse: Option<Program>, g: Option<nat>, ig: Option<nat>, text: string,
        st: State, fuel: nat)
    requires s.naming.BySlot?
    requires Agrees(i, cfg, s, kids, g, program, fuel)
      && Agrees(i, cfg, s, kids, ig, inverse, fuel)
    ensures var p := HeadPath(call.head);
      var r := Run(i, cfg, kids, CallOps(cfg, ScopeOf(s.frames), call, sub, g, ig, text), st, View(s), fuel);
      && Pushed(r, st, One(EvalCall(i, cfg, s, call, sub, program, inverse, text, fuel)))
      && (r.Ok? && Classify(cfg, ScopeOf(s.frames), call, sub).Ambiguous? ==>
            EvalPath(i, s, p, true).Ok? && r.value.lastHelper == HelperNote(i, cfg, p.parts[0],
              EvalPath(i, s, p, true).value))
    decreases fuel, 2, call, 1
  {
    hide Run, Agrees, ScopeOf, SetupOps, PathOps, EvalPath, EvalKnown, EvalUnknown,
      EvalResolved, EvalAmbiguous, HelperNote, View, HeadPath;
    var p := HeadPath(call.head);
    match Classify(cfg, ScopeOf(s.frames), call, sub)
    case Helper =>
      if IsKnownHelper(cfg, p) {
        KnownHelperMeaning(i, cfg, s, kids, call, program, inverse, g, ig, st, fuel);
      } else {
        HelperMeaning(i, cfg, s, kids, call, program, inverse, g, ig, st, fuel);
      }
    case Simple =>
      SimpleMeaning(i, cfg, s, kids, p, st, fuel);
    case Ambiguous =>
      AmbiguousMeaning(i, cfg, s, kids, p, text, program, inverse, g, ig, st, fuel);
  }

  // ---- statements

  /** r appended exactly the text to st and left the stacks as they were, or failed the way the text did. */
  ghost predicate Wrote(r: Result<State>, st: State, t: Result<string>) {
    match t
    case Ok(text) => r.Ok? && r.value.stack == st.stack && r.value.hashes == st.hashes && r.value.buffer == st.buffer +
      text
    case _ => r == t.PropagateFailure()
  }

  lemma {:induction false} DecoratorMeaning(i: Interp, cfg: Config, s: Scene, kids: seq<Prog>, call: CallExpr,
      original: string,
      g: Option<nat>, st: State, fuel: nat)
    requires s.naming.BySlot?
    ensures Run(i, cfg, kids, DecoratorOps(cfg, ScopeOf(s.frames), call, original, g), st, View(s), fuel)
      == EvalDecorator(i, cfg, s, call.args, fuel).PropagateFailure()
    decreases fuel, 3, 0
  {
    hide EvalParams, EvalHash, SetupOps, ScopeOf, View;
    var setup := SetupOps(cfg, ScopeOf(s.frames), call.args, g, None, false);
    var op := RegisterDecorator(|call.args.params|, original);
    RunConcat(i, cfg, kids, setup, [op], st, View(s), fuel);
    SetupMeaning(i, cfg, s, kids, call.args, g, None, false, st, fuel);
    var r := Run(i, cfg, kids, setup, st, View(s), fuel);
    if r.Ok? {
      RunOne(i, cfg, kids, op, r.value, View(s), fuel);
    }
  }

  /** The block part after a plain value v: blockHelperMissing is called with it. */
  lemma {:induction false} MissingOperands(i: Interp, cfg: Config, kids: seq<Prog>, v: Value, g: Option<nat>,
      ig: Option<nat>,
      st: State, env: Env, fuel: nat)
    requires st.stack == [v]
    ensures Run(i, cfg, kids, PairOps(g, ig) + [EmptyHash(false)], st, env, fuel)
      == Ok(st.(stack := [v, GuidValue(g), GuidValue(ig), VHash([])]))
    ensures PopOptions([v, GuidValue(g), GuidValue(ig), VHash([])], 1) == Ok(CallOptions([], [v], VHash([]), g, ig))
    ensures PopOptions([v, GuidValue(g), GuidValue(ig), VHash([])], 0) == Ok(CallOptions([v], [], VHash([]), g, ig))
  {
    RunConcat(i, cfg, kids, PairOps(g, ig), [EmptyHash(false)], st, env, fuel);
    PairMeaning(i, cfg, kids, g, ig, st, env, fuel);
    var paired := st.(stack := st.stack + [GuidValue(g), GuidValue(ig)]);
    RunOne(i, cfg, kids, EmptyHash(false), paired, env, fuel);
    assert paired.stack + [VHash([])] == [v, GuidValue(g), GuidValue(ig), VHash([])];
    assert [] + [v] + [GuidValue(g), GuidValue(ig)] + [VHash([])] == [v, GuidValue(g), GuidValue(ig), VHash([])];
    assert [v] + [] + [GuidValue(g), GuidValue(ig)] + [VHash([])] == [v, GuidValue(g), GuidValue(ig), VHash([])];
    PopOptionsOf([], [v], g, ig, VHash([]));
    PopOptionsOf([v], [], g, ig, VHash([]));
  }

  /** The operands, the operation that takes them, and the append. */
  lemma {:induction false} MissingThen(i: Interp, cfg: Config, kids: seq<Prog>, v: Value, g: Option<nat>,
      ig: Option<nat>, op: Op, st: State, env: Env, fuel: nat)
    requires st.stack == [v]
    ensures var r := Step(i, cfg, kids, op, st.(stack := [v, GuidValue(g), GuidValue(ig), VHash([])]), env, fuel);
      Run(i, cfg, kids, PairOps(g, ig) + [EmptyHash(false), op] + [Append], st, env, fuel)
        == if r.Ok? then Step(i, cfg, kids, Append, r.value, env, fuel) else r
  {
    hide Run, Step, PairOps, PopOptions;
    var ready := st.(stack := [v, GuidValue(g), GuidValue(ig), VHash([])]);
    var front := PairOps(g, ig) + [EmptyHash(false)];
    assert PairOps(g, ig) + [EmptyHash(false), op] + [Append] == front + ([op] + [Append]);
    RunConcat(i, cfg, kids, front, [op] + [Append], st, env, fuel);
    MissingOperands(i, cfg, kids, v, g, ig, st, env, fuel);
    RunConcat(i, cfg, kids, [op], [Append], ready, env, fuel);
    RunOne(i, cfg, kids, op, ready, env, fuel);
    var r := Step(i, cfg, kids, op, ready, env, fuel);
    if r.Ok? { RunOne(i, cfg, kids, Append, r.value, env, fuel); }
  }

  /** What a block emits after its call, the final append included, given the value of the call. */
  lemma {:induction false} BlockTailMeaning(i: Interp, cfg: Config, s: Scene, kids: seq<Prog>, b: Stmt, base: nat,
      v: Value, st: State, fuel: nat)
    requires b.Block? && !b.decorator && st.stack == [v]
    requires Agrees(i, cfg, s, kids, ProgramGuid(b, base), b.program, fuel)
    requires Agrees(i, cfg, s, kids, InverseGuid(b, base), b.inverse, fuel)
    requires var p := HeadPath(b.call.head);
      Classify(cfg, ScopeOf(s.frames), b.call, false).Ambiguous? ==>
        EvalPath(i, s, p, true).Ok? && st.lastHelper == HelperNote(i, cfg, p.parts[0], EvalPath(i, s, p, true).value)
    ensures Wrote(Run(i, cfg, kids, BlockTail(cfg, ScopeOf(s.frames), b, base) + [Append], st, View(s), fuel),
      st.(stack := []),
      EvalBlockTail(i, cfg, s, b, v, fuel))
    decreases fuel, 2
  {
    hide EvalMissing, EvalPath, RendersAlike, ScopeOf, ParamsOf, CallOps, Agrees, Run, PairOps;
    var g, ig, env := ProgramGuid(b, base), InverseGuid(b, base), View(s);
    var ready := st.(stack := [v, GuidValue(g), GuidValue(ig), VHash([])]);
    match Classify(cfg, ScopeOf(s.frames), b.call, false)
    case Helper =>
      assert [] + [Append] == [Append];
      RunOne(i, cfg, kids, Append, st, env, fuel);
    case Simple =>
      var name := HeadPath(b.call.head).original;
      MissingThen(i, cfg, kids, v, g, ig, BlockValue(name), st, env, fuel);
      BlockValueMeaning(i, cfg, s, kids, b, name, g, ig, v, ready, fuel);
    case Ambiguous =>
      MissingThen(i, cfg, kids, v, g, ig, AmbiguousBlockValue, st, env, fuel);
      AmbiguousBlockValueMeaning(i, cfg, s, kids, b, g, ig, v, ready, fuel);
      var r := Step(i, cfg, kids, AmbiguousBlockValue, ready, env, fuel);
      if r.Ok? { assert Pop(r.value.stack) == []; }
  }

  lemma BlockValueMeaning(i: Interp, cfg: Config, s: Scene, kids: seq<Prog>, b: Stmt, name: string, g: Option<nat>,
      ig: Option<nat>,
      v: Value, st: State, fuel: nat)
    requires b.Block? && st.stack == [v, GuidValue(g), GuidValue(ig), VHash([])]
    requires Agrees(i, cfg, s, kids, g, b.program, fuel)
      && Agrees(i, cfg, s, kids, ig, b.inverse, fuel)
    ensures var r := Step(i, cfg, kids, BlockValue(name), st, View(s), fuel);
      var m := EvalMissing(i, cfg, s, Some(name), v, b, fuel);
      if m.Ok? then r == Ok(st.(stack := [], buffer := st.buffer + i.show(m.value, false)))
        else r == m.PropagateFailure()
  {
    hide RendersAlike, ScopeOf, ParamsOf, EvalAct, RunCall, PopOptions;
    assert [] + [v] + [GuidValue(g), GuidValue(ig)] + [VHash([])] == st.stack;
    PopOptionsOf([], [v], g, ig, VHash([]));
    ActMeaning(i, cfg, s, kids, CallFor(BlockHelperMissing(Some(name)), [v], VHash([]), b.program, b.inverse, s),
      b.program, b.inverse, g, ig, [], fuel);
  }

  /** If the ambiguous call found a helper its result stands; otherwise it goes through blockHelperMissing. */
  lemma AmbiguousBlockValueMeaning(i: Interp, cfg: Config, s: Scene, kids: seq<Prog>, b: Stmt, g: Option<nat>,
      ig: Option<nat>,
      v: Value, st: State, fuel: nat)
    requires b.Block? && st.stack == [v, GuidValue(g), GuidValue(ig), VHash([])]
    requires Agrees(i, cfg, s, kids, g, b.program, fuel)
      && Agrees(i, cfg, s, kids, ig, b.inverse, fuel)
    ensures var r := Step(i, cfg, kids, AmbiguousBlockValue, st, View(s), fuel);
      var m := EvalMissing(i, cfg, s, None, v, b, fuel);
      if st.lastHelper.Some? || m.Ok?
      then r.Ok? && r.value.stack == [if st.lastHelper.Some? then v else m.value] && r.value.hashes == st.hashes
        && r.value.buffer == st.buffer
      else r == m.PropagateFailure()
  {
    hide EvalAct, RunCall, RendersAlike, View;
    assert [] + [v] + [GuidValue(g), GuidValue(ig)] + [VHash([])] == st.stack;
    assert [v] + [] + [GuidValue(g), GuidValue(ig)] + [VHash([])] == st.stack;
    PopOptionsOf([], [v], g, ig, VHash([]));
    PopOptionsOf([v], [], g, ig, VHash([]));
    ActMeaning(i, cfg, s, kids, CallFor(BlockHelperMissing(None), [v], VHash([]), b.program, b.inverse, s),
      b.program, b.inverse, g, ig, [], fuel);
  }

  lemma {:induction false} BlockMeaning(i: Interp, cfg: Config, s: Scene, kids: seq<Prog>, b: Stmt, base: nat,
      st: State, fuel: nat)
    requires b.Block? && !b.decorator && st.stack == []
    requires s.naming.BySlot?
    requires Agrees(i, cfg, s, kids, ProgramGuid(b, base), b.program, fuel)
    requires Agrees(i, cfg, s, kids, InverseGuid(b, base), b.inverse, fuel)
    ensures Wrote(Run(i, cfg, kids, BlockOps(cfg, ScopeOf(s.frames), b, base), st, View(s), fuel), st,
      EvalBlock(i, cfg, s, b, fuel))
    decreases fuel, 3, 0
  {
    var g, ig, env := ProgramGuid(b, base), InverseGuid(b, base), View(s);
    var text := BlockText(b);
    var call := CallOps(cfg, ScopeOf(s.frames), b.call, false, g, ig, text);
    var tail := BlockTail(cfg, ScopeOf(s.frames), b, base) + [Append];
    assert BlockOps(cfg, ScopeOf(s.frames), b, base) == call + tail;
    RunConcat(i, cfg, kids, call, tail, st, env, fuel);
    CallMeaning(i, cfg, s, kids, b.call, false, b.program, b.inverse, g, ig, text, st, fuel);
    var r := Run(i, cfg, kids, call, st, env, fuel);
    if r.Ok? {
      var v := EvalCall(i, cfg, s, b.call, false, b.program, b.inverse, text, fuel).value;
      assert r.value.stack == [v];
      BlockTailMeaning(i, cfg, s, kids, b, base, v, r.value, fuel);
    }
  }

  lemma {:induction false} PartialTailMeaning(i: Interp, cfg: Config, s: Scene, kids: seq<Prog>, b: Stmt,
      g: Option<nat>,
      name: Option<Value>, context: Value, hash: Value, st: State, fuel: nat)
    requires b.Partial? && (name.Some? <==> b.name.Dynamic?)
    requires st.stack == NameStack(name) + [context, GuidValue(g), GuidValue(None), hash]
    requires Agrees(i, cfg, s, kids, g, b.program, fuel)
    ensures Wrote(Run(i, cfg, kids, PartialTail(cfg, b), st, View(s), fuel), st.(stack := []),
      EvalPartialCall(i, cfg, s, b, name, context, hash, fuel))
    decreases fuel, 2
  {
    hide RendersAlike, ScopeOf, ParamsOf, EvalAct, RunCall, PopOptions, Agrees, Step, Run, PartialOperand, NameStack;
    var env := View(s);
    var op := InvokePartial(b.name.Dynamic?, PartialOperand(cfg, b.name), if cfg.preventIndent then "" else b.indent);
    var indent := if cfg.preventIndent && b.indent != "" then [AppendContent(b.indent)] else [];
    assert PartialTail(cfg, b) == indent + ([op] + [Append]);
    RunConcat(i, cfg, kids, indent, [op] + [Append], st, env, fuel);
    var before := if cfg.preventIndent then b.indent else "";
    var ready := st.(buffer := st.buffer + before);
    IndentMeaning(i, cfg, kids, cfg.preventIndent, b.indent, st, env, fuel);
    InvokePartialMeaning(i, cfg, s, kids, b, g, name, context, hash, op.indent, ready, fuel);
    ThenAppendNothing(i, cfg, kids, op, ready, env, fuel);
    if cfg.preventIndent {
      assert forall t: string :: st.buffer + b.indent + t == st.buffer + (b.indent + t);
    }
  }

  /**
   block_value pushes nothing, so the append that ends a block over a plain value takes whatever lay below:
   the stack is what it was if and only if nothing did.
   */
  lemma AppendTakesTheNext(i: Interp, cfg: Config, kids: seq<Prog>, name: string, below: seq<Value>, v: Value,
      g: Option<nat>, ig: Option<nat>,
      st: State, env: Env, fuel: nat)
    requires st.stack == below + [v, GuidValue(g), GuidValue(ig), VHash([])]
    ensures var r := Run(i, cfg, kids, [BlockValue(name)] + [Append], st, env, fuel);
      r.Ok? ==> |r.value.stack| == (if below == [] then 0 else |below| - 1) && (r.value.stack == below <==> below == [])
  {
    hide PopOptions, RunCall;
    assert st.stack == below + [v] + [GuidValue(g), GuidValue(ig)] + [VHash([])];
    PopOptionsOf(below, [v], g, ig, VHash([]));
    RunConcat(i, cfg, kids, [BlockValue(name)], [Append], st, env, fuel);
    RunOne(i, cfg, kids, BlockValue(name), st, env, fuel);
    var r := Step(i, cfg, kids, BlockValue(name), st, env, fuel);
    if r.Ok? { RunOne(i, cfg, kids, Append, r.value, env, fuel); }
  }

  lemma IndentMeaning(i: Interp, cfg: Config, kids: seq<Prog>, here: bool, indent: string, st: State, env: Env,
      fuel: nat)
    ensures Run(i, cfg, kids, if here && indent != "" then [AppendContent(indent)] else [], st, env, fuel)
      == Ok(st.(buffer := st.buffer + if here then indent else ""))
  {
    RunOne(i, cfg, kids, AppendContent(indent), st, env, fuel);
    assert st.buffer + "" == st.buffer;
  }

  /** The append after an opcode that leaves the stack empty does nothing. */
  lemma ThenAppendNothing(i: Interp, cfg: Config, kids: seq<Prog>, op: Op, st: State, env: Env, fuel: nat)
    requires var r := Step(i, cfg, kids, op, st, env, fuel); r.Ok? ==> r.value.stack == []
    ensures Run(i, cfg, kids, [op] + [Append], st, env, fuel) == Step(i, cfg, kids, op, st, env, fuel)
  {
    RunConcat(i, cfg, kids, [op], [Append], st, env, fuel);
    RunOne(i, cfg, kids, op, st, env, fuel);
    var r := Step(i, cfg, kids, op, st, env, fuel);
    if r.Ok? { RunOne(i, cfg, kids, Append, r.value, env, fuel); }
  }

  lemma InvokePartialMeaning(i: Interp, cfg: Config, s: Scene, kids: seq<Prog>, b: Stmt, g: Option<nat>,
      name: Option<Value>, context: Value, hash: Value, indent: string, st: State, fuel: nat)
    requires b.Partial? && (name.Some? <==> b.name.Dynamic?)
    requires st.stack == NameStack(name) + [context, GuidValue(g), GuidValue(None), hash]
    requires Agrees(i, cfg, s, kids, g, b.program, fuel)
    ensures var r := Step(i, cfg, kids, InvokePartial(b.name.Dynamic?, PartialOperand(cfg, b.name), indent), st,
      View(s), fuel);
      var called := EvalAct(i, cfg, s, CallFor(PartialCall(name, PartialOperand(cfg, b.name)), [context], hash,
        b.program, None, s), b.program, None, [], fuel);
      if called.Ok? then r == Ok(st.(stack := [], buffer := st.buffer + i.indent(i.show(called.value, false), indent)))
      else r == called.PropagateFailure()
  {
    hide RendersAlike, ScopeOf, ParamsOf, EvalAct, RunCall, PopOptions, PartialOperand;
    assert st.stack == NameStack(name) + [context] + [GuidValue(g), GuidValue(None)] + [hash];
    PopOptionsOf(NameStack(name), [context], g, None, hash);
    ActMeaning(i, cfg, s, kids, CallFor(PartialCall(name, PartialOperand(cfg, b.name)), [context], hash, b.program,
      None, s),
      b.program, None, g, None, [], fuel);
  }

  function NameStack(name: Option<Value>): seq<Value> {
    if name.Some? then [name.value] else []
  }

  lemma {:induction false} PartialNameMeaning(i: Interp, cfg: Config, s: Scene, kids: seq<Prog>, name: PartialName,
      st: State, fuel: nat)
    requires s.naming.BySlot?
    ensures var n := EvalPartialName(i, cfg, s, name, fuel);
      Pushed(Run(i, cfg, kids, PartialNameOps(cfg, ScopeOf(s.frames), name), st, View(s), fuel), st,
        if n.Ok? then Ok(NameStack(n.value)) else n.PropagateFailure())
    decreases fuel, 3, 0
  {
    match name
    case Static(_) => assert st.stack + [] == st.stack;
    case Dynamic(call) => CallMeaning(i, cfg, s, kids, call, true, None, None, None, None, "", st, fuel);
  }

  lemma OneParam(i: Interp, cfg: Config, s: Scene, params: seq<Expr>, fuel: nat)
    requires |params| == 1
    ensures EvalParams(i, cfg, s, params, fuel) == One(EvalExpr(i, cfg, s, params[0], fuel))
  {
    var v := EvalExpr(i, cfg, s, params[0], fuel);
    assert EvalParams(i, cfg, s, params[1..], fuel) == Ok([]);
    if v.Ok? { assert [v.value] + [] == [v.value]; }
  }

  /** The operands of a partial once its name is on the stack. */
  lemma {:induction false} PartialOperands(i: Interp, cfg: Config, s: Scene, kids: seq<Prog>, args: Args,
      g: Option<nat>,
      below: seq<Value>, st: State, fuel: nat)
    requires s.naming.BySlot?
    requires |args.params| <= 1
    requires st.stack == below + (if args.params == [] && cfg.explicitPartialContext then [VNull] else [])
    ensures var r := Run(i, cfg, kids, SetupOps(cfg, ScopeOf(s.frames), PartialArgs(cfg, args), g, None, true), st,
      View(s), fuel);
      var c, h := EvalPartialContext(i, cfg, s, args.params, fuel), EvalHash(i, cfg, s, args.hash, fuel);
      if c.Ok? && h.Ok?
      then r.Ok? && r.value.stack == below + [c.value, GuidValue(g), GuidValue(None), h.value]
        && r.value.hashes == st.hashes && r.value.buffer == st.buffer
      else r == (if c.Ok? then h.PropagateFailure() else c.PropagateFailure())
    decreases fuel, 3, 0
  {
    hide RendersAlike, Agrees, ScopeOf, ParamsOf, EvalHash, SetupOps, Step, Run;
    var full := PartialArgs(cfg, args);
    SetupMeaning(i, cfg, s, kids, full, g, None, true, st, fuel);
    var c, h := EvalPartialContext(i, cfg, s, args.params, fuel), EvalHash(i, cfg, s, args.hash, fuel);
    if full.params != [] {
      OneParam(i, cfg, s, full.params, fuel);
    }
    if c.Ok? && h.Ok? {
      assert below + ([c.value] + [GuidValue(g), GuidValue(None)] + [h.value]) == below +
        [c.value, GuidValue(g), GuidValue(None), h.value];
      assert below + [c.value] + ([] + [GuidValue(g), GuidValue(None)] + [h.value]) == below +
        [c.value, GuidValue(g), GuidValue(None), h.value];
    }
  }

  lemma {:induction false} PartialMeaning(i: Interp, cfg: Config, s: Scene, kids: seq<Prog>, b: Stmt, base: nat,
      st: State, fuel: nat)
    requires b.Partial? && |b.args.params| <= 1 && !Swapped(cfg, b) && st.stack == []
    requires s.naming.BySlot?
    requires Agrees(i, cfg, s, kids, ProgramGuid(b, base), b.program, fuel)
    ensures Wrote(Run(i, cfg, kids, PartialOps(cfg, ScopeOf(s.frames), b, base), st, View(s), fuel), st,
      EvalPartial(i, cfg, s, b, fuel))
    decreases fuel, 4, 0
  {
    hide SetupOps, PartialTail, EvalPartialContext, EvalHash, EvalPartialCall, EvalCall, CallOps, RendersAlike, ScopeOf,
      ParamsOf;
    var env, scope, g := View(s), ScopeOf(s.frames), ProgramGuid(b, base);
    var before, name := PartialContextOps(cfg, b.args.params), PartialNameOps(cfg, scope, b.name);
    var setup, tail := SetupOps(cfg, scope, PartialArgs(cfg, b.args), g, None, true), PartialTail(cfg, b);
    RunConcat(i, cfg, kids, before + name + setup, tail, st, env, fuel);
    RunConcat(i, cfg, kids, before + name, setup, st, env, fuel);
    RunConcat(i, cfg, kids, before, name, st, env, fuel);
    var first := if before == [] then st else st.(stack := [VNull]);
    if before != [] { RunOne(i, cfg, kids, PushLiteral(Text("undefined")), st, env, fuel); }
    PartialNameMeaning(i, cfg, s, kids, b.name, first, fuel);
    var r := Run(i, cfg, kids, name, first, env, fuel);
    if r.Ok? {
      var n := EvalPartialName(i, cfg, s, b.name, fuel).value;
      assert r.value.stack == NameStack(n) + (if before == [] then [] else [VNull]);
      PartialOperands(i, cfg, s, kids, b.args, g, NameStack(n), r.value, fuel);
      var q := Run(i, cfg, kids, setup, r.value, env, fuel);
      if q.Ok? {
        var c, h := EvalPartialContext(i, cfg, s, b.args.params, fuel).value,
          EvalHash(i, cfg, s, b.args.hash, fuel).value;
        PartialTailMeaning(i, cfg, s, kids, b, g, n, c, h, q.value, fuel);
      }
    }
  }

  /**
   A partial with a computed name and a left-out context, under explicitPartialContext, is called with the
   two exchanged: the empty context lies below the name.
   */
  lemma {:induction false} SwappedPartialMeaning(i: Interp, cfg: Config, s: Scene, kids: seq<Prog>, b: Stmt, base: nat,
      st: State, fuel: nat)
    requires Swapped(cfg, b) && st.stack == []
    requires s.naming.BySlot?
    requires Agrees(i, cfg, s, kids, ProgramGuid(b, base), b.program, fuel)
    ensures var n, h := EvalCall(i, cfg, s, b.name.call, true, None, None, "", fuel),
      EvalHash(i, cfg, s, b.args.hash, fuel);
      var r := Run(i, cfg, kids, PartialOps(cfg, ScopeOf(s.frames), b, base), st, View(s), fuel);
      && (n.Ok? && h.Ok? ==>
            && Wrote(r, st, EvalPartialCall(i, cfg, s, b, Some(VNull), n.value, h.value, fuel))
            && EvalPartial(i, cfg, s, b, fuel) == EvalPartialCall(i, cfg, s, b, Some(n.value), VNull, h.value, fuel)
            && var swapped := PartialCallFor(cfg, s, b, Some(VNull), n.value, h.value);
              swapped == PartialCallFor(cfg, s, b, Some(n.value), VNull, h.value) <==> n.value == VNull)
      && (!(n.Ok? && h.Ok?) ==> Wrote(r, st, EvalPartial(i, cfg, s, b, fuel)))
  {
    hide SetupOps, PartialTail, EvalHash, EvalPartialCall, EvalCall, CallOps, RendersAlike, ScopeOf, ParamsOf;
    var env, scope, g := View(s), ScopeOf(s.frames), ProgramGuid(b, base);
    var before, name := PartialContextOps(cfg, b.args.params), PartialNameOps(cfg, scope, b.name);
    var setup, tail := SetupOps(cfg, scope, PartialArgs(cfg, b.args), g, None, true), PartialTail(cfg, b);
    RunConcat(i, cfg, kids, before + name + setup, tail, st, env, fuel);
    RunConcat(i, cfg, kids, before + name, setup, st, env, fuel);
    RunConcat(i, cfg, kids, before, name, st, env, fuel);
    RunOne(i, cfg, kids, PushLiteral(Text("undefined")), st, env, fuel);
    var first := st.(stack := [VNull]);
    assert st.stack + [VNull] == first.stack;
    PartialNameMeaning(i, cfg, s, kids, b.name, first, fuel);
    var r := Run(i, cfg, kids, name, first, env, fuel);
    if r.Ok? {
      var n := EvalCall(i, cfg, s, b.name.call, true, None, None, "", fuel).value;
      assert r.value.stack == [VNull, n];
      SetupMeaning(i, cfg, s, kids, PartialArgs(cfg, b.args), g, None, true, r.value, fuel);
      SwappedOperands(i, cfg, s, b, g, n, fuel);
      var q := Run(i, cfg, kids, setup, r.value, env, fuel);
      if q.Ok? {
        var h := EvalHash(i, cfg, s, b.args.hash, fuel).value;
        assert q.value.stack == NameStack(Some(VNull)) + [n, GuidValue(g), GuidValue(None), h];
        PartialTailMeaning(i, cfg, s, kids, b, g, Some(VNull), n, h, q.value, fuel);
      }
    }
  }

  /** The call that looks for a partial and renders it. */
  function PartialCallFor(cfg: Config, s: Scene, b: Stmt, name: Option<Value>, context: Value, hash: Value): Call
    requires b.Partial?
  {
    CallFor(PartialCall(name, PartialOperand(cfg, b.name)), [context], hash, b.program, None, s)
  }

  lemma SwappedOperands(i: Interp, cfg: Config, s: Scene, b: Stmt, g: Option<nat>, n: Value, fuel: nat)
    requires Swapped(cfg, b)
    ensures var h := EvalHash(i, cfg, s, b.args.hash, fuel);
      var vs := SetupValues(i, cfg, s, PartialArgs(cfg, b.args), g, None, fuel);
      if h.Ok? then vs.Ok? && [VNull, n] + vs.value == [VNull] + [n, GuidValue(g), GuidValue(None), h.value]
      else vs == h.PropagateFailure()
  {
    assert EvalParams(i, cfg, s, [], fuel) == Ok([]);
  }

  /** The programs attached to a statement agree with the children its opcodes refer to. */
  ghost predicate StmtAgrees(i: Interp, cfg: Config, s: Scene, kids: seq<Prog>, stmt: Stmt, base: nat, fuel: nat) {
    && (stmt.Block? && !stmt.decorator ==>
          && Agrees(i, cfg, s, kids, ProgramGuid(stmt, base), stmt.program, fuel)
          && Agrees(i, cfg, s, kids, InverseGuid(stmt, base), stmt.inverse, fuel))
    && (stmt.RawBlock? ==> Agrees(i, cfg, s, kids, Some(base), AsBlock(stmt).program, fuel))
    && (stmt.Partial? ==> Agrees(i, cfg, s, kids, ProgramGuid(stmt, base), stmt.program, fuel))
  }

  lemma MustacheMeaning(i: Interp, cfg: Config, s: Scene, kids: seq<Prog>, call: CallExpr, escape: bool, st: State,
      fuel: nat)
    requires s.naming.BySlot?
    ensures var v := EvalCall(i, cfg, s, call, false, None, None, "", fuel);
      Wrote(Run(i, cfg, kids, CallOps(cfg, ScopeOf(s.frames), call, false, None, None, "") +
        [if escape then AppendEscaped else Append],
        st, View(s), fuel), st, if v.Ok? then Ok(i.show(v.value, escape)) else v.PropagateFailure())
  {
    hide CallOps, EvalCall, ScopeOf, ParamsOf;
    var ops, op := CallOps(cfg, ScopeOf(s.frames), call, false, None, None, ""), if escape then AppendEscaped
      else Append;
    RunConcat(i, cfg, kids, ops, [op], st, View(s), fuel);
    CallMeaning(i, cfg, s, kids, call, false, None, None, None, None, "", st, fuel);
    var r := Run(i, cfg, kids, ops, st, View(s), fuel);
    if r.Ok? {
      RunOne(i, cfg, kids, op, r.value, View(s), fuel);
      assert Pop(r.value.stack) == st.stack;
    }
  }

  /** From the empty stack, the opcodes of a statement write its text and leave the stack empty. */
  lemma StmtMeaning(i: Interp, cfg: Config, s: Scene, kids: seq<Prog>, stmt: Stmt, base: nat, st: State, fuel: nat)
    requires st.stack == []
    requires s.naming.BySlot?
    requires !Swapped(cfg, stmt) && (stmt.Partial? ==> |stmt.args.params| <= 1)
    requires StmtAgrees(i, cfg, s, kids, stmt, base, fuel)
    ensures Wrote(Run(i, cfg, kids, StmtOps(cfg, ScopeOf(s.frames), stmt, base), st, View(s), fuel), st,
      EvalStmt(i, cfg, s, stmt, fuel))
  {
    match stmt
    case Content(v) =>
      if v == "" { assert st.buffer + v == st.buffer; }
        else { RunOne(i, cfg, kids, AppendContent(v), st, View(s), fuel); }
    case Comment => assert st.buffer + "" == st.buffer;
    case Mustache(call, unescaped, decorator) =>
      if decorator {
        DecoratorMeaning(i, cfg, s, kids, call, HeadText(call.head), None, st, fuel);
      } else {
        MustacheMeaning(i, cfg, s, kids, call, !unescaped && !cfg.noEscape, st, fuel);
      }
    case RawBlock(_, _) => BlockMeaning(i, cfg, s, kids, AsBlock(stmt), base, st, fuel);
    case Block(call, _, _, decorator, _) =>
      if decorator {
        DecoratorMeaning(i, cfg, s, kids, call, HeadPath(call.head).original, ProgramGuid(stmt, base), st, fuel);
      } else {
        BlockMeaning(i, cfg, s, kids, stmt, base, st, fuel);
      }
    case Partial(_, _, _, _) => PartialMeaning(i, cfg, s, kids, stmt, base, st, fuel);
  }

  // ---- programs

  /** What the theorem asks of a statement besides its own children. */
  ghost predicate GoodStmt(cfg: Config, frames: seq<Frame>, stmt: Stmt) {
    StraightStmt(cfg, stmt) && StmtCompiles(cfg, ScopeOf(frames), stmt)
  }

  ghost predicate GoodBody(cfg: Config, frames: seq<Frame>, stmts: seq<Stmt>) {
    StraightBody(cfg, stmts) && BodyCompiles(cfg, ScopeOf(frames), stmts)
  }

  /** From position base on, kids holds the compiled programs of the statements. */
  ghost predicate KidsFrom(kids: seq<Prog>, base: nat, mine: seq<Prog>) {
    base + |mine| <= |kids| && kids[base..base + |mine|] == mine
  }

  lemma KidsFromSplit(kids: seq<Prog>, base: nat, a: seq<Prog>, b: seq<Prog>)
    requires KidsFrom(kids, base, a + b)
    ensures KidsFrom(kids, base, a) && KidsFrom(kids, base + |a|, b)
  {
    assert (a + b)[..|a|] == a && (a + b)[|a|..] == b;
    assert kids[base..base + |a|] == kids[base..base + |a + b|][..|a|];
    assert kids[base + |a|..base + |a| + |b|] == kids[base..base + |a + b|][|a|..];
  }

  lemma KidPlaces(cfg: Config, scope: Scope, kids: seq<Prog>, stmt: Stmt, base: nat)
    requires KidsFrom(kids, base, StmtKids(cfg, scope, stmt))
    ensures stmt.Block? && !stmt.decorator ==>
      KidAt(cfg, scope, kids, ProgramGuid(stmt, base), stmt.program) && KidAt(cfg, scope, kids, InverseGuid(stmt, base),
        stmt.inverse)
    ensures stmt.Partial? ==> KidAt(cfg, scope, kids, ProgramGuid(stmt, base), stmt.program)
    ensures stmt.RawBlock? ==> base < |kids| && kids[base] == RawKid(stmt.content)
  {
    var mine := StmtKids(cfg, scope, stmt);
    assert |mine| > 0 ==> kids[base] == kids[base..base + |mine|][0];
    assert |mine| > 1 ==> kids[base + 1] == kids[base..base + |mine|][1];
    if stmt.Block? {
      assert mine == OptionalKid(cfg, scope, stmt.program) + (if stmt.decorator then []
        else OptionalKid(cfg, scope, stmt.inverse));
    } else if stmt.Partial? {
      assert mine == OptionalKid(cfg, scope, stmt.program);
    }
  }

  lemma {:induction false} OptionMeaning(i: Interp, cfg: Config, s: Scene, kids: seq<Prog>, g: Option<nat>,
      p: Option<Program>, fuel: nat)
    requires s.naming.BySlot? && KidAt(cfg, ScopeOf(s.frames), kids, g, p) && GoodOption(cfg, s.frames, p)
    ensures Agrees(i, cfg, s, kids, g, p, fuel)
    decreases fuel, 0, 0
  {
    if p.Some? {
      forall a: Action, f: nat | f < fuel && a.Render?
        ensures RunProgram(i, cfg, kids[g.value], Enter(i, View(s), a), f) == EvalProgram(i, cfg, p.value,
          EnterScene(i, s, a), a.params, f)
      {
        ChildMeaning(i, cfg, s, p.value, a, f);
      }
    }
  }

  lemma GoodChildren(cfg: Config, frames: seq<Frame>, stmt: Stmt)
    requires GoodStmt(cfg, frames, stmt)
    ensures stmt.Block? && !stmt.decorator ==>
      GoodOption(cfg, frames, stmt.program) && GoodOption(cfg, frames, stmt.inverse)
    ensures stmt.Partial? ==> GoodOption(cfg, frames, stmt.program)
  {
    var scope := ScopeOf(frames);
    if stmt.Block? && !stmt.decorator {
      assert StraightOption(cfg, stmt.program) && StraightOption(cfg, stmt.inverse);
      assert OptionalCompiles(cfg, scope, stmt.program) && OptionalCompiles(cfg, scope, stmt.inverse);
    } else if stmt.Partial? {
      assert StraightOption(cfg, stmt.program) && OptionalCompiles(cfg, scope, stmt.program);
    }
  }

  lemma {:induction false} StmtChildren(i: Interp, cfg: Config, s: Scene, kids: seq<Prog>, stmt: Stmt, base: nat,
      fuel: nat)
    requires s.naming.BySlot? && GoodStmt(cfg, s.frames, stmt)
    requires KidsFrom(kids, base, StmtKids(cfg, ScopeOf(s.frames), stmt))
    ensures StmtAgrees(i, cfg, s, kids, stmt, base, fuel)
    decreases fuel, 1, 0
  {
    KidPlaces(cfg, ScopeOf(s.frames), kids, stmt, base);
    GoodChildren(cfg, s.frames, stmt);
    if stmt.Block? && !stmt.decorator {
      OptionMeaning(i, cfg, s, kids, ProgramGuid(stmt, base), stmt.program, fuel);
      OptionMeaning(i, cfg, s, kids, InverseGuid(stmt, base), stmt.inverse, fuel);
    } else if stmt.Partial? {
      OptionMeaning(i, cfg, s, kids, ProgramGuid(stmt, base), stmt.program, fuel);
    } else if stmt.RawBlock? {
      RawKidMeaning(i, cfg, s, stmt.content, fuel);
    }
  }

  lemma EvalOneContent(i: Interp, cfg: Config, s: Scene, content: string, fuel: nat)
    ensures EvalBody(i, cfg, s, [Content(content)], fuel) == Ok(content)
  {
    EvalBodyStep(i, cfg, s, [Content(content)], fuel);
    assert [Content(content)][1..] == [];
    assert content + "" == content;
  }

  /** The compiled content of a raw block renders as itself. */
  lemma RawKidMeaning(i: Interp, cfg: Config, s: Scene, content: string, fuel: nat)
    ensures RendersAlike(i, cfg, s, RawKid(content), Program([Content(content)], None, None), fuel)
  {
    var p := Program([Content(content)], None, None);
    forall a: Action, f: nat | f < fuel && a.Render?
      ensures RunProgram(i, cfg, RawKid(content), Enter(i, View(s), a), f) ==
        EvalProgram(i, cfg, p, EnterScene(i, s, a), a.params, f)
    {
      var env := Enter(i, View(s), a);
      RunOne(i, cfg, [], AppendContent(content), EMPTY_STATE, env, f);
      assert EMPTY_STATE.buffer + content == content;
      assert RunProgram(i, cfg, RawKid(content), env, f) == Ok(content);
      EvalOneContent(i, cfg, EnterScene(i, s, a).(frames := s.frames + [Frame(Names(None, None), a.params)]), content,
        f);
    }
  }

  lemma {:induction false} BodyMeaning(i: Interp, cfg: Config, s: Scene, kids: seq<Prog>, stmts: seq<Stmt>, base: nat,
      st: State, fuel: nat)
    requires st.stack == []
    requires s.naming.BySlot? && GoodBody(cfg, s.frames, stmts)
    requires KidsFrom(kids, base, BodyKids(cfg, ScopeOf(s.frames), stmts))
    ensures Wrote(Run(i, cfg, kids, BodyOps(cfg, ScopeOf(s.frames), stmts, base), st, View(s), fuel), st,
      EvalBody(i, cfg, s, stmts, fuel))
    decreases fuel, 2, |stmts|, 1
  {
    if stmts == [] {
      assert st.buffer + "" == st.buffer;
    } else {
      BodyOpsStep(cfg, ScopeOf(s.frames), stmts, base);
      EvalBodyStep(i, cfg, s, stmts, fuel);
      BodyMeaningStep(i, cfg, s, kids, stmts, base, st, fuel);
    }
  }

  lemma {:induction false} BodyMeaningStep(i: Interp, cfg: Config, s: Scene, kids: seq<Prog>, stmts: seq<Stmt>,
      base: nat, st: State, fuel: nat)
    requires st.stack == [] && stmts != []
    requires GoodBody(cfg, s.frames, stmts)
    requires s.naming.BySlot?
    requires KidsFrom(kids, base, StmtKids(cfg, ScopeOf(s.frames), stmts[0]) + BodyKids(cfg, ScopeOf(s.frames),
      stmts[1..]))
    ensures var t, u := EvalStmt(i, cfg, s, stmts[0], fuel), EvalBody(i, cfg, s, stmts[1..], fuel);
      Wrote(Run(i, cfg, kids, StmtOps(cfg, ScopeOf(s.frames), stmts[0], base) +
          BodyOps(cfg, ScopeOf(s.frames), stmts[1..], base + KidCount(stmts[0])), st, View(s), fuel), st,
        if !t.Ok? then t else if u.Ok? then Ok(t.value + u.value) else u)
    decreases fuel, 2, |stmts|, 0
  {
    hide *;
    var scope, n := ScopeOf(s.frames), KidCount(stmts[0]);
    var a, b := StmtOps(cfg, scope, stmts[0], base), BodyOps(cfg, scope, stmts[1..], base + n);
    GoodBodySplit(cfg, s.frames, stmts);
    KidsFromSplit(kids, base, StmtKids(cfg, scope, stmts[0]), BodyKids(cfg, scope, stmts[1..]));
    StmtChildren(i, cfg, s, kids, stmts[0], base, fuel);
    StmtMeaning(i, cfg, s, kids, stmts[0], base, st, fuel);
    var r := Run(i, cfg, kids, a, st, View(s), fuel);
    if r.Ok? {
      WroteStack(r, st, EvalStmt(i, cfg, s, stmts[0], fuel));
      BodyMeaning(i, cfg, s, kids, stmts[1..], base + n, r.value, fuel);
    }
    WroteBoth(i, cfg, kids, a, b, st, View(s), fuel, EvalStmt(i, cfg, s, stmts[0], fuel),
      EvalBody(i, cfg, s, stmts[1..], fuel));
  }

  lemma GoodBodySplit(cfg: Config, frames: seq<Frame>, stmts: seq<Stmt>)
    requires stmts != [] && GoodBody(cfg, frames, stmts)
    ensures GoodStmt(cfg, frames, stmts[0]) && GoodBody(cfg, frames, stmts[1..])
    ensures !Swapped(cfg, stmts[0]) && (stmts[0].Partial? ==> |stmts[0].args.params| <= 1)
  {
  }

  lemma WroteStack(r: Result<State>, st: State, t: Result<string>)
    requires Wrote(r, st, t) && r.Ok?
    ensures r.value.stack == st.stack
  {
  }

  /** Writing one text and then another writes their concatenation. */
  lemma WroteBoth(i: Interp, cfg: Config, kids: seq<Prog>, a: seq<Op>, b: seq<Op>, st: State, env: Env, fuel: nat,
      t: Result<string>, u: Result<string>)
    requires var r := Run(i, cfg, kids, a, st, env, fuel);
      Wrote(r, st, t) && (r.Ok? ==> Wrote(Run(i, cfg, kids, b, r.value, env, fuel), r.value, u))
    ensures Wrote(Run(i, cfg, kids, a + b, st, env, fuel), st, if !t.Ok? then t else if u.Ok? then Ok(t.value + u.value)
      else u)
  {
    RunConcat(i, cfg, kids, a, b, st, env, fuel);
    if t.Ok? && u.Ok? { assert st.buffer + t.value + u.value == st.buffer + (t.value + u.value); }
  }

  lemma EvalBodyStep(i: Interp, cfg: Config, s: Scene, stmts: seq<Stmt>, fuel: nat)
    requires stmts != []
    ensures var t, u := EvalStmt(i, cfg, s, stmts[0], fuel), EvalBody(i, cfg, s, stmts[1..], fuel);
      EvalBody(i, cfg, s, stmts, fuel) == if !t.Ok? then t else if u.Ok? then Ok(t.value + u.value) else u
  {
  }

  lemma BodyOpsStep(cfg: Config, scope: Scope, stmts: seq<Stmt>, base: nat)
    requires stmts != []
    ensures BodyOps(cfg, scope, stmts, base) ==
      StmtOps(cfg, scope, stmts[0], base) + BodyOps(cfg, scope, stmts[1..], base + KidCount(stmts[0]))
    ensures BodyKids(cfg, scope, stmts) == StmtKids(cfg, scope, stmts[0]) + BodyKids(cfg, scope, stmts[1..])
  {
  }

  /** A compiled program run from empty stacks writes the text of the program's body. */
  lemma {:induction false} ProgramMeaning(i: Interp, cfg: Config, s: Scene, p: Program, compiled: Prog, fuel: nat)
    requires s.naming.BySlot? && GoodBody(cfg, s.frames, p.stmts)
    requires compiled.ops == BodyOps(cfg, ScopeOf(s.frames), p.stmts, 0)
      && compiled.kids == BodyKids(cfg, ScopeOf(s.frames), p.stmts)
    ensures RunProgram(i, cfg, compiled, View(s), fuel) == EvalBody(i, cfg, s, p.stmts, fuel)
    decreases fuel, 3, 0
  {
    assert compiled.kids[0..0 + |compiled.kids|] == compiled.kids;
    BodyMeaning(i, cfg, s, compiled.kids, p.stmts, 0, EMPTY_STATE, fuel);
    var t := EvalBody(i, cfg, s, p.stmts, fuel);
    if t.Ok? {
      assert EMPTY_STATE.buffer + t.value == t.value;
    }
  }

  /** Rendering a compiled child in the callee's environment equals evaluating the block in its scene. */
  lemma {:induction false} ChildMeaning(i: Interp, cfg: Config, s: Scene, p: Program, a: Action, fuel: nat)
    requires a.Render? && s.naming.BySlot? && Good(cfg, s.frames, p)
    ensures RunProgram(i, cfg, CompileProgram(cfg, ScopeOf(s.frames), p), Enter(i, View(s), a), fuel)
      == EvalProgram(i, cfg, p, EnterScene(i, s, a), a.params, fuel)
    decreases fuel, 4, 0
  {
    var inner := EnterScene(i, s, a);
    var scene := inner.(frames := inner.frames + [Frame(Names(p.param1, p.param2), a.params)]);
    ViewOfInner(i, s, a, Names(p.param1, p.param2));
    ScopeOfInner(s.frames, p, a.params);
    ProgramMeaning(i, cfg, scene, p, CompileProgram(cfg, ScopeOf(s.frames), p), fuel);
  }

  /**
   Running a compiled template in a context writes exactly what the template evaluates to by slot, for all helpers,
   data and amounts of fuel; it must compile, and swap no partial.
   */
  lemma TemplateMeaning(i: Interp, cfg: Config, p: Program, context: Value, data: Value, fuel: nat)
    requires ProgramCompiles(cfg, [], p) && StraightProgram(cfg, p)
    ensures RunProgram(i, cfg, CompileProgram(cfg, [], p), Env([context], data, [], []), fuel)
      == EvalProgram(i, cfg, p, Scene([context], data, [], [], BySlot), None, fuel)
  {
    var frame := Frame(Names(p.param1, p.param2), None);
    var scene := Scene([context], data, [frame], [], BySlot);
    assert ScopeOf(scene.frames) == Inner([], p);
    assert View(scene) == Env([context], data, [], []) by {
      assert scene.frames[..0] == [];
      assert ParamsOf(scene.frames) == ParamsOf([]) + [];
    }
    assert [] + [frame] == scene.frames;
    ProgramMeaning(i, cfg, scene, p, CompileProgram(cfg, [], p), fuel);
  }
}

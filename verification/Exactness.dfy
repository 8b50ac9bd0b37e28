/**
 The check of a template against a policy is exact: a template runs as it is meant under every interpretation that
 obeys the policy if and only if the check finds it safe.
 */
module Exactness {
  import opened Options
  import opened AssocList
  import opened Ast
  import opened CodeGen
  import opened Vm
  import opened Eval
  import opened Slots
  import opened Meaning
  import opened Safety
  import opened Policies
  import opened Witness

  // ---- bodies

  ghost predicate AllEven(cfg: Config, plan: seq<Choice>, s: Scene, stmts: seq<Stmt>, fuel: nat) {
    forall n :: 0 <= n < |stmts| ==> ProgramsEven(cfg, plan, s, stmts[n], fuel)
  }

  lemma {:induction false} BodyEven(cfg: Config, plan: seq<Choice>, s: Scene, stmts: seq<Stmt>, fuel: nat)
    requires s.naming.BySlot? && Tracked(|plan| + 1, s) && Enough(plan, s, fuel) && TidyBody(stmts)
    requires AllEven(cfg, plan, s, stmts, fuel)
    ensures var i := Scout(cfg, plan);
      var r, t := EvalBody(i, cfg, s, stmts, fuel), EvalBody(i, cfg, Named(s), stmts, fuel);
      && EvenTexts(r, t)
      && (!BodySound(cfg, ScopeOf(s.frames), GivenOf(s.frames), stmts) ==> ToldTexts(r, t))
      && forall n, callee ::
        0 <= n < |stmts| && Serves(cfg, ScopeOf(s.frames), stmts[n], callee) ==>
        RendersTold(cfg, plan, s, callee, ProgramOf(stmts[n]), InverseOf(stmts[n]), fuel) ==> ToldTexts(r, t)
    decreases |stmts|
  {
    hide EvalStmt, StmtSound, TidyStmt, Tracked, Enough, ScopeOf, GivenOf, Serves, RendersTold, ProgramsEven, ProgramOf,
      InverseOf, Scout;
    if stmts != [] {
      var i := Scout(cfg, plan);
      assert ProgramsEven(cfg, plan, s, stmts[0], fuel);
      StmtEven(cfg, plan, s, stmts[0], fuel);
      assert AllEven(cfg, plan, s, stmts[1..], fuel);
      BodyEven(cfg, plan, s, stmts[1..], fuel);
      EvalBodyStep(i, cfg, s, stmts, fuel);
      EvalBodyStep(i, cfg, Named(s), stmts, fuel);
      var a, b := EvalStmt(i, cfg, s, stmts[0], fuel), EvalStmt(i, cfg, Named(s), stmts[0], fuel);
      var c, d := EvalBody(i, cfg, s, stmts[1..], fuel), EvalBody(i, cfg, Named(s), stmts[1..], fuel);
      ConcatTold(a.value, c.value, b.value, d.value);
      forall n, callee | 0 <= n < |stmts| && Serves(cfg, ScopeOf(s.frames), stmts[n], callee)
        && RendersTold(cfg, plan, s, callee, ProgramOf(stmts[n]), InverseOf(stmts[n]), fuel)
        ensures ToldTexts(a, b) || ToldTexts(c, d)
      {
        if n > 0 { assert stmts[1..][n - 1] == stmts[n]; }
      }
    }
  }

  // ---- programs

  /** A scene a program is about to be rendered in: its frame is still missing. */
  predicate Ready(width: nat, s: Scene) {
    && |s.contexts| == |s.frames| + 1 <= width
    && (forall k :: 0 <= k < |s.contexts| ==> s.contexts[k] == VNull)
    && forall k :: 0 <= k < |s.frames| && s.frames[k].params.Some? ==> s.frames[k].params.value == Sign(width, k)
  }

  predicate Signed(width: nat, s: Scene, params: Option<Value>) {
    params.Some? ==> params.value == Sign(width, |s.frames|)
  }

  function Inside(s: Scene, p: Program, params: Option<Value>): Scene {
    s.(frames := s.frames + [Frame(Names(p.param1, p.param2), params)])
  }

  lemma InsideIsTracked(width: nat, s: Scene, p: Program, params: Option<Value>)
    requires Ready(width, s) && Signed(width, s, params)
    ensures Tracked(width, Inside(s, p, params))
    ensures ScopeOf(Inside(s, p, params).frames) == Inner(ScopeOf(s.frames), p)
    ensures GivenOf(Inside(s, p, params).frames) == GivenOf(s.frames) + [params.Some?]
  {
    hide Sign;
  }

  /** What the plan makes of a tracked scene. */
  lemma WithinIsReady(plan: seq<Choice>, s: Scene)
    requires Tracked(|plan| + 1, s) && |s.contexts| <= |plan|
    ensures Ready(|plan| + 1, Within(s)) && Signed(|plan| + 1, Within(s), PlannedParams(plan, s))
    ensures PlannedParams(plan, s).Some? == plan[|s.contexts| - 1].gives
  {
    hide Sign;
  }

  lemma {:induction false} ProgramEven(cfg: Config, plan: seq<Choice>, s: Scene, p: Program, params: Option<Value>,
      fuel: nat)
    requires s.naming.BySlot? && Ready(|plan| + 1, s) && Signed(|plan| + 1, s, params) && Enough(plan, s, fuel)
    requires TidyProgram(p)
    ensures EvenTexts(EvalProgram(Scout(cfg, plan), cfg, p, s, params, fuel),
      EvalProgram(Scout(cfg, plan), cfg, p, Named(s), params, fuel))
    decreases fuel, 2
  {
    hide EvalBody, BodySound, Ready, Tracked, Signed, ScopeOf, GivenOf, Scout, AllEven;
    var inside := Inside(s, p, params);
    InsideIsTracked(|plan| + 1, s, p, params);
    AllProgramsEven(cfg, plan, inside, p.stmts, fuel);
    BodyEven(cfg, plan, inside, p.stmts, fuel);
  }

  lemma {:induction false} AllProgramsEven(cfg: Config, plan: seq<Choice>, s: Scene, stmts: seq<Stmt>, fuel: nat)
    requires s.naming.BySlot? && Tracked(|plan| + 1, s) && Enough(plan, s, fuel) && TidyBody(stmts)
    ensures AllEven(cfg, plan, s, stmts, fuel)
    decreases fuel, 1
  {
    hide ProgramsEven, Tracked, TidyStmt;
    forall n | 0 <= n < |stmts| ensures ProgramsEven(cfg, plan, s, stmts[n], fuel) {
      TidyAt(stmts, n);
      AreEven(cfg, plan, s, stmts[n], fuel);
    }
  }

  lemma {:induction false} TidyAt(stmts: seq<Stmt>, n: nat)
    requires TidyBody(stmts) && n < |stmts|
    ensures TidyStmt(stmts[n])
  {
    if n > 0 { TidyAt(stmts[1..], n - 1); }
  }

  lemma {:induction false} AreEven(cfg: Config, plan: seq<Choice>, s: Scene, stmt: Stmt, fuel: nat)
    requires s.naming.BySlot? && Tracked(|plan| + 1, s) && Enough(plan, s, fuel) && TidyStmt(stmt)
    ensures ProgramsEven(cfg, plan, s, stmt, fuel)
    decreases fuel, 0
  {
    hide EvalProgram, Scout, Tracked, Ready, Signed, TidyStmt, TidyArgs;
    HasContext(|plan| + 1, s);
    TidyPrograms(stmt);
    forall callee: Callee ensures RendersEven(cfg, plan, s, callee, ProgramOf(stmt), InverseOf(stmt), fuel) {
      var depth := |s.contexts| - 1;
      if depth < |plan| && plan[depth].callee == callee {
        var which := if plan[depth].inverse then InverseOf(stmt) else ProgramOf(stmt);
        if which.Some? {
          WithinIsReady(plan, s);
          ProgramEven(cfg, plan, Within(s), which.value, PlannedParams(plan, s), fuel - 1);
        }
      }
    }
  }

  lemma TidyPrograms(stmt: Stmt)
    requires TidyStmt(stmt)
    ensures TidyOption(ProgramOf(stmt)) && TidyOption(InverseOf(stmt))
  {
    if stmt.RawBlock? {
      var stmts := [Content(stmt.content)];
      assert stmts[1..] == [] && TidyBody(stmts[1..]);
      assert TidyStmt(stmts[0]) && TidyBody(stmts);
      assert TidyProgram(AsBlock(stmt).program.value);
    }
  }

  // ---- a plan that leads to a lookup that is not sound

  /** The callee that may render a program of the statement in the given way. */
  function Server(cfg: Config, policy: Policy, scope: Scope, s: Stmt, inverse: bool, gives: bool): Callee
    requires s.Block? || s.Partial?
  {
    if s.Partial? then PartialTo(PartialOperand(cfg, s.name))
    else
      var first := FirstCallee(cfg, scope, s.call, false);
      if first.Some? && Permits(policy, Choice(first.value, inverse, gives)) then first.value else Missing
  }

  predicate Unsafe(cfg: Config, policy: Policy, scope: Scope, given: seq<bool>, p: Option<Program>, w: Way,
      gives: bool) {
    p.Some? && (if gives then w.give else w.omit) && !SafeBy(cfg, policy, scope, given, p.value, gives)
  }

  /** Which program of an unsafe statement is not safe, and how it has to be rendered for that. */
  function Fault(cfg: Config, policy: Policy, scope: Scope, given: seq<bool>, s: Stmt): (bool, bool)
    requires s.Block? || s.Partial?
  {
    var terms := PolicyTerms(cfg, policy, scope, s);
    if Unsafe(cfg, policy, scope, given, s.program, terms.program, true) then (false, true)
    else if Unsafe(cfg, policy, scope, given, s.program, terms.program, false) then (false, false)
    else if Unsafe(cfg, policy, scope, given, InverseOf(s), terms.inverse, true) then (true, true)
    else (true, false)
  }

  lemma FaultIsUnsafe(cfg: Config, policy: Policy, scope: Scope, given: seq<bool>, s: Stmt)
    requires TidyStmt(s) && !StmtSafeBy(cfg, policy, scope, given, s)
    ensures s.Block? || s.Partial?
    ensures var (inverse, gives) := Fault(cfg, policy, scope, given, s);
      Unsafe(cfg, policy, scope, given, if inverse then InverseOf(s) else s.program,
        WayOf(PolicyTerms(cfg, policy, scope, s), inverse), gives)
  {
    hide PolicyTerms, SafeBy;
  }

  lemma ServerServes(cfg: Config, policy: Policy, scope: Scope, given: seq<bool>, s: Stmt, inverse: bool, gives: bool)
    requires s.Block? || s.Partial?
    requires var w := WayOf(PolicyTerms(cfg, policy, scope, s), inverse); if gives then w.give else w.omit
    ensures Serves(cfg, scope, s, Server(cfg, policy, scope, s, inverse, gives))
    ensures Permits(policy, Choice(Server(cfg, policy, scope, s, inverse, gives), inverse, gives))
  {
    hide HeadPath, PartialOperand, IsKnownHelper;
    if s.Block? && Classify(cfg, scope, s.call, false).Ambiguous? {
      AmbiguousIsName(cfg, scope, s.call, false);
    }
  }

  ghost function BodyPlan(cfg: Config, policy: Policy, scope: Scope, given: seq<bool>, stmts: seq<Stmt>): seq<Choice>
    requires TidyBody(stmts) && !BodySafeBy(cfg, policy, scope, given, stmts)
    decreases stmts, 0
  {
    if StmtSafeBy(cfg, policy, scope, given, stmts[0]) then BodyPlan(cfg, policy, scope, given, stmts[1..])
    else StmtPlan(cfg, policy, scope, given, stmts[0])
  }

  ghost function StmtPlan(cfg: Config, policy: Policy, scope: Scope, given: seq<bool>, s: Stmt): seq<Choice>
    requires TidyStmt(s) && !StmtSafeBy(cfg, policy, scope, given, s)
    decreases s, 1
  {
    FaultIsUnsafe(cfg, policy, scope, given, s);
    var (inverse, gives) := Fault(cfg, policy, scope, given, s);
    var p := (if inverse then InverseOf(s) else s.program).value;
    [Choice(Server(cfg, policy, scope, s, inverse, gives), inverse, gives)]
      + ProgramPlan(cfg, policy, scope, given, p, gives)
  }

  /** A plan for a program that is not safe: how to get to the lookup that is not sound, from the program inwards. */
  ghost function ProgramPlan(cfg: Config, policy: Policy, scope: Scope, given: seq<bool>, p: Program,
      gets: bool): seq<Choice>
    requires TidyProgram(p) && !SafeBy(cfg, policy, scope, given, p, gets)
    decreases p, 0
  {
    if !BodySound(cfg, Inner(scope, p), given + [gets], p.stmts) then []
    else BodyPlan(cfg, policy, Inner(scope, p), given + [gets], p.stmts)
  }

  predicate AllPermitted(policy: Policy, plan: seq<Choice>) {
    forall n :: 0 <= n < |plan| ==> Permits(policy, plan[n])
  }

  lemma {:induction false} BodyPlanPermitted(cfg: Config, policy: Policy, scope: Scope, given: seq<bool>,
      stmts: seq<Stmt>)
    requires TidyBody(stmts) && !BodySafeBy(cfg, policy, scope, given, stmts)
    ensures AllPermitted(policy, BodyPlan(cfg, policy, scope, given, stmts))
    decreases stmts, 0
  {
    hide Permits, SafeBy, PolicyTerms, Server;
    if StmtSafeBy(cfg, policy, scope, given, stmts[0]) {
      BodyPlanPermitted(cfg, policy, scope, given, stmts[1..]);
    } else {
      StmtPlanPermitted(cfg, policy, scope, given, stmts[0]);
    }
  }

  lemma {:induction false} StmtPlanPermitted(cfg: Config, policy: Policy, scope: Scope, given: seq<bool>, s: Stmt)
    requires TidyStmt(s) && !StmtSafeBy(cfg, policy, scope, given, s)
    ensures AllPermitted(policy, StmtPlan(cfg, policy, scope, given, s))
    decreases s, 1
  {
    hide Permits, SafeBy, PolicyTerms, Server, Fault, StmtSafeBy;
    FaultIsUnsafe(cfg, policy, scope, given, s);
    TidyPrograms(s);
    var (inverse, gives) := Fault(cfg, policy, scope, given, s);
    var p := (if inverse then InverseOf(s) else s.program).value;
    ServerServes(cfg, policy, scope, given, s, inverse, gives);
    ProgramPlanPermitted(cfg, policy, scope, given, p, gives);
  }

  lemma {:induction false} ProgramPlanPermitted(cfg: Config, policy: Policy, scope: Scope, given: seq<bool>, p: Program,
      gets: bool)
    requires TidyProgram(p) && !SafeBy(cfg, policy, scope, given, p, gets)
    ensures AllPermitted(policy, ProgramPlan(cfg, policy, scope, given, p, gets))
    decreases p, 0
  {
    hide Permits, BodySound, BodySafeBy;
    if BodySound(cfg, Inner(scope, p), given + [gets], p.stmts) {
      BodyPlanPermitted(cfg, policy, Inner(scope, p), given + [gets], p.stmts);
    }
  }

  // ---- following the plan, run and meaning differ

  /** The statement of a body the plan leads into. */
  lemma {:induction false} PlannedStmt(cfg: Config, policy: Policy, scope: Scope, given: seq<bool>, stmts: seq<Stmt>)
      returns (n: nat)
    requires TidyBody(stmts) && !BodySafeBy(cfg, policy, scope, given, stmts)
    ensures n < |stmts| && TidyStmt(stmts[n]) && !StmtSafeBy(cfg, policy, scope, given, stmts[n])
    ensures BodyPlan(cfg, policy, scope, given, stmts) == StmtPlan(cfg, policy, scope, given, stmts[n])
  {
    hide StmtSafeBy, StmtPlan;
    if StmtSafeBy(cfg, policy, scope, given, stmts[0]) {
      var m := PlannedStmt(cfg, policy, scope, given, stmts[1..]);
      n := m + 1;
    } else {
      n := 0;
    }
  }

  /** An unsafe program, rendered as its plan says, evaluates to one text by slot and to another by name. */
  lemma {:induction false} ProgramTold(cfg: Config, policy: Policy, plan: seq<Choice>, s: Scene, p: Program,
      params: Option<Value>, fuel: nat)
    requires s.naming.BySlot? && Ready(|plan| + 1, s) && Signed(|plan| + 1, s, params) && Enough(plan, s, fuel)
    requires TidyProgram(p) && !SafeBy(cfg, policy, ScopeOf(s.frames), GivenOf(s.frames), p, params.Some?)
    requires |s.contexts| - 1 <= |plan| && plan[|s.contexts| - 1..]
      == ProgramPlan(cfg, policy, ScopeOf(s.frames), GivenOf(s.frames), p, params.Some?)
    ensures ToldTexts(EvalProgram(Scout(cfg, plan), cfg, p, s, params, fuel),
      EvalProgram(Scout(cfg, plan), cfg, p, Named(s), params, fuel))
    decreases fuel, 1
  {
    hide EvalBody, BodySound, BodySafeBy, Ready, Tracked, Signed, ScopeOf, GivenOf, Scout, AllEven, Serves, RendersTold;
    var inside := Inside(s, p, params);
    var scope, given := ScopeOf(inside.frames), GivenOf(inside.frames);
    InsideIsTracked(|plan| + 1, s, p, params);
    AllProgramsEven(cfg, plan, inside, p.stmts, fuel);
    BodyEven(cfg, plan, inside, p.stmts, fuel);
    if BodySound(cfg, scope, given, p.stmts) {
      var n := PlannedStmt(cfg, policy, scope, given, p.stmts);
      StmtTold(cfg, policy, plan, inside, p.stmts[n], fuel);
      assert s.contexts != [] by { HasContext(|plan| + 1, inside); }
      assert Serves(cfg, scope, p.stmts[n], plan[|s.contexts| - 1].callee);
    }
  }

  lemma {:induction false} StmtTold(cfg: Config, policy: Policy, plan: seq<Choice>, s: Scene, stmt: Stmt, fuel: nat)
    requires s.naming.BySlot? && Tracked(|plan| + 1, s) && Enough(plan, s, fuel)
    requires TidyStmt(stmt) && !StmtSafeBy(cfg, policy, ScopeOf(s.frames), GivenOf(s.frames), stmt)
    requires |s.contexts| - 1 <= |plan| && plan[|s.contexts| - 1..]
      == StmtPlan(cfg, policy, ScopeOf(s.frames), GivenOf(s.frames), stmt)
    ensures |s.contexts| <= |plan|
    ensures Serves(cfg, ScopeOf(s.frames), stmt, plan[|s.contexts| - 1].callee)
    ensures RendersTold(cfg, plan, s, plan[|s.contexts| - 1].callee, ProgramOf(stmt), InverseOf(stmt), fuel)
    decreases fuel, 0
  {
    hide SafeBy, PolicyTerms, Server, Fault, StmtSafeBy, Serves, Permits, EvalProgram, Scout, ScopeOf, GivenOf, Tracked,
      Ready, Signed, ProgramPlan;
    var scope, given, depth := ScopeOf(s.frames), GivenOf(s.frames), |s.contexts| - 1;
    HasContext(|plan| + 1, s);
    FaultIsUnsafe(cfg, policy, scope, given, stmt);
    TidyPrograms(stmt);
    var (inverse, gives) := Fault(cfg, policy, scope, given, stmt);
    var p := (if inverse then InverseOf(stmt) else stmt.program).value;
    ServerServes(cfg, policy, scope, given, stmt, inverse, gives);
    var choice := Choice(Server(cfg, policy, scope, stmt, inverse, gives), inverse, gives);
    assert plan[depth..] == [choice] + ProgramPlan(cfg, policy, scope, given, p, gives);
    assert plan[depth] == choice && plan[depth + 1..] == plan[depth..][1..];
    WithinIsReady(plan, s);
    ProgramTold(cfg, policy, plan, Within(s), p, PlannedParams(plan, s), fuel - 1);
  }

  // ---- the theorem

  lemma UnsafeIsTold(cfg: Config, policy: Policy, p: Program)
    requires ProgramCompiles(cfg, [], p) && StraightProgram(cfg, p) && TidyProgram(p)
    requires !SafeBy(cfg, policy, [], [], p, false)
    ensures var plan := ProgramPlan(cfg, policy, [], [], p, false);
      Obeys(Scout(cfg, plan), policy) && !SameText(Scout(cfg, plan), cfg, p, VNull, VNull, |plan|)
  {
    hide SafeBy, ProgramPlan, Scout, EvalProgram, RunProgram, StraightProgram, TidyProgram, ProgramCompiles;
    var plan := ProgramPlan(cfg, policy, [], [], p, false);
    ProgramPlanPermitted(cfg, policy, [], [], p, false);
    ScoutObeys(cfg, policy, plan);
    var s := Scene([VNull], VNull, [], [], BySlot);
    assert ScopeOf(s.frames) == [] && GivenOf(s.frames) == [];
    assert plan[0..] == plan;
    ProgramTold(cfg, policy, plan, s, p, None, |plan|);
    TemplateMeaning(Scout(cfg, plan), cfg, p, VNull, VNull, |plan|);
  }

  /**
   Exactness: all interpretations that obey the policy run the template as it is meant, on all data and with any
   amount of fuel, if and only if the template is safe by the policy.
   */
  lemma PolicyExact(cfg: Config, policy: Policy, p: Program)
    requires ProgramCompiles(cfg, [], p) && StraightProgram(cfg, p) && TidyProgram(p)
    ensures SafeBy(cfg, policy, [], [], p, false) <==>
      forall i: Interp, context, data, fuel :: Obeys(i, policy) ==> SameText(i, cfg, p, context, data, fuel)
  {
    hide SafeBy, SameText, Scout, Obeys, ProgramPlan, StraightProgram, TidyProgram, ProgramCompiles;
    if SafeBy(cfg, policy, [], [], p, false) {
      forall i: Interp, context, data, fuel | Obeys(i, policy) ensures SameText(i, cfg, p, context, data, fuel) {
        PolicyMeaning(i, cfg, policy, p, context, data, fuel);
      }
    } else {
      UnsafeIsTold(cfg, policy, p);
    }
  }

  // ---- a condition that cannot be dropped

  /** A key that comes twice in a hash hides its second value, whatever was looked up for it. */
  lemma RepeatedKeyHides(i: Interp, cfg: Config, s: Scene, key: string, first: Literal, second: Path, fuel: nat)
    requires EvalPath(i, s, second, false).Ok? && EvalPath(i, Named(s), second, false).Ok?
    ensures var hash := Hash([HashPair(key, LitExpr(first)), HashPair(key, PathExpr(second))]);
      EvalHash(i, cfg, s, hash, fuel) == EvalHash(i, cfg, Named(s), hash, fuel) == Ok(VHash([Pair(KeyOf(i, key),
        EvalLiteral(cfg, first))]))
  {
    var pairs := [HashPair(key, LitExpr(first)), HashPair(key, PathExpr(second))];
    RepeatedKey(i, cfg, s, pairs, fuel);
    RepeatedKey(i, cfg, Named(s), pairs, fuel);
  }

  lemma RepeatedKey(i: Interp, cfg: Config, s: Scene, pairs: seq<HashPair>, fuel: nat)
    requires |pairs| == 2 && pairs[0].key == pairs[1].key && pairs[0].value.LitExpr?
    requires pairs[1].value.PathExpr? && EvalPath(i, s, pairs[1].value.path, false).Ok?
    ensures EvalHash(i, cfg, s, Hash(pairs), fuel)
      == Ok(VHash([Pair(KeyOf(i, pairs[0].key), EvalLiteral(cfg, pairs[0].value.lit))]))
  {
    hide EvalPath;
    var v, w := EvalLiteral(cfg, pairs[0].value.lit), EvalPath(i, s, pairs[1].value.path, false).value;
    assert pairs[1..][1..] == [] && pairs[1..][0] == pairs[1];
    assert EvalValues(i, cfg, s, pairs[1..][1..], fuel) == Ok([]);
    assert EvalExpr(i, cfg, s, pairs[1].value, fuel) == Ok(w) && [w] + [] == [w];
    assert EvalValues(i, cfg, s, pairs[1..], fuel) == Ok([w] + []);
    assert EvalValues(i, cfg, s, pairs, fuel) == Ok([v] + [w]);
    var vs := [v] + [w];
    assert vs[1..] == [w] && [w][1..] == [];
    assert Dictionary(i, pairs[1..][1..], [w][1..]) == [];
    var d := [Pair(KeyOf(i, pairs[1].key), w)];
    assert Dictionary(i, pairs[1..], [w]) == d && d[1..] == [];
    assert Dictionary(i, pairs, vs) == Put(d, KeyOf(i, pairs[0].key), v) == [Pair(KeyOf(i, pairs[0].key), v)] + d[1..];
    assert [Pair(KeyOf(i, pairs[0].key), v)] + [] == [Pair(KeyOf(i, pairs[0].key), v)];
    assert EvalHash(i, cfg, s, Hash(pairs), fuel) == Ok(VHash(Dictionary(i, pairs, vs)));
  }
}

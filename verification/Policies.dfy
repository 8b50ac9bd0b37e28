/**
 When a template is safe to run, as a caller can check it: from a policy that says how each callee renders
 its blocks, without looking at any particular run.
 */
module Policies {
  import opened Options
  import opened Ast
  import opened CodeGen
  import opened Vm
  import opened Eval
  import opened Slots
  import opened Meaning
  import opened Safety
  import opened Scoping
  import opened Lookups

  /** Callees as far as a template can name them. */
  datatype Callee =
    | KnownNamed(name: string) | HelperNamed(name: string) | ValueNamed(name: string)
    | Missing | Lambda | PartialTo(target: Operand)

  type Policy = Callee -> Terms

  function CalleeOf(k: Kind): Callee {
    match k
    case KnownHelper(name) => KnownNamed(name)
    case HelperCall(name, _, _) => HelperNamed(name)
    case AmbiguousCall(name, _, _, _) => ValueNamed(name)
    case BlockHelperMissing(_) => Missing
    case LambdaCall(_) => Lambda
    case PartialCall(_, target) => PartialTo(target)
  }

  /** Every callee renders its blocks in the ways the policy allows it. */
  ghost predicate Obeys(i: Interp, policy: Policy) {
    forall c: Call :: Obliged(i, c, policy(CalleeOf(c.kind)))
  }

  function Either(a: Way, b: Way): Way {
    Way(a.give || b.give, a.omit || b.omit)
  }

  function Both(a: Terms, b: Terms): Terms {
    Terms(Either(a.program, b.program), Either(a.inverse, b.inverse))
  }

  function CallTerms(cfg: Config, policy: Policy, scope: Scope, call: CallExpr): Terms {
    var p := HeadPath(call.head);
    match Classify(cfg, scope, call, false)
    case Helper => policy(if IsKnownHelper(cfg, p) then KnownNamed(p.parts[0]) else HelperNamed(p.original))
    case Simple => policy(Missing)
    case Ambiguous => Both(policy(ValueNamed(p.parts[0])), policy(Missing))
  }

  /** How the programs of a statement may be rendered under the policy. */
  function PolicyTerms(cfg: Config, policy: Policy, scope: Scope, s: Stmt): Terms {
    match s
    case Block(call, _, _, _, _) => CallTerms(cfg, policy, scope, call)
    case RawBlock(call, _) => CallTerms(cfg, policy, scope, call)
    case Partial(name, _, _, _) => policy(PartialTo(PartialOperand(cfg, name)))
    case _ => NEVER
  }

  predicate OptionSafeBy(cfg: Config, policy: Policy, scope: Scope, given: seq<bool>, p: Option<Program>, w: Way)
    decreases p, 1
  {
    p.Some? ==>
      && (w.give ==> SafeBy(cfg, policy, scope, given, p.value, true))
      && (w.omit ==> SafeBy(cfg, policy, scope, given, p.value, false))
  }

  predicate StmtSafeBy(cfg: Config, policy: Policy, scope: Scope, given: seq<bool>, s: Stmt)
    decreases s, 1
  {
    var terms := PolicyTerms(cfg, policy, scope, s);
    match s
    case Block(_, program, inverse, decorator, _) =>
      decorator ||
      (&& OptionSafeBy(cfg, policy, scope, given, program, terms.program)
       && OptionSafeBy(cfg, policy, scope, given, inverse, terms.inverse))
    case Partial(_, _, program, _) => OptionSafeBy(cfg, policy, scope, given, program, terms.program)
    case _ => true
  }

  predicate BodySafeBy(cfg: Config, policy: Policy, scope: Scope, given: seq<bool>, stmts: seq<Stmt>)
    decreases stmts, 0
  {
    stmts == [] || (StmtSafeBy(cfg, policy, scope, given, stmts[0])
      && BodySafeBy(cfg, policy, scope, given, stmts[1..]))
  }

  /** However the callees render within the policy, every block-parameter lookup finds what it means. */
  predicate SafeBy(cfg: Config, policy: Policy, scope: Scope, given: seq<bool>, p: Program, gets: bool)
    decreases p, 0
  {
    && BodySound(cfg, Inner(scope, p), given + [gets], p.stmts)
    && BodySafeBy(cfg, policy, Inner(scope, p), given + [gets], p.stmts)
  }

  predicate Covers(a: Way, b: Way) {
    (b.give ==> a.give) && (b.omit ==> a.omit)
  }

  lemma TermsCovered(i: Interp, cfg: Config, policy: Policy, scope: Scope, given: seq<bool>, s: Stmt)
    requires Obeys(i, policy)
    ensures var most, terms := PolicyTerms(cfg, policy, scope, s), StmtTerms(i, cfg, scope, given, s);
      Covers(most.program, terms.program) && Covers(most.inverse, terms.inverse)
  {
    hide Classify, HeadPath, PartialOperand, Meets, IsKnownHelper;
    var most := PolicyTerms(cfg, policy, scope, s);
    forall inverse: bool, gives: bool | MayRender(i, cfg, scope, given, s, inverse, gives)
      ensures var w := if inverse then most.inverse else most.program; if gives then w.give else w.omit
    {
      var c: Call, texts: seq<string> :| StmtCalls(cfg, scope, given, s, c) && RendersSo(i, c, texts, inverse, gives);
      assert Obliged(i, c, policy(CalleeOf(c.kind)));
    }
  }

  lemma {:induction false} OptionIsSafe(i: Interp, cfg: Config, policy: Policy, scope: Scope, given: seq<bool>,
      p: Option<Program>, most: Way, w: Way)
    requires Obeys(i, policy) && Covers(most, w) && OptionSafeBy(cfg, policy, scope, given, p, most)
    ensures SafeOption(i, cfg, scope, given, p, w)
    decreases p, 1
  {
    if p.Some? {
      if w.give { ProgramIsSafe(i, cfg, policy, scope, given, p.value, true); }
      if w.omit { ProgramIsSafe(i, cfg, policy, scope, given, p.value, false); }
    }
  }

  lemma {:induction false} StmtIsSafe(i: Interp, cfg: Config, policy: Policy, scope: Scope, given: seq<bool>, s: Stmt)
    requires Obeys(i, policy) && StmtSafeBy(cfg, policy, scope, given, s)
    ensures SafeStmt(i, cfg, scope, given, s)
    decreases s, 1
  {
    hide StmtTerms, PolicyTerms;
    TermsCovered(i, cfg, policy, scope, given, s);
    var most, terms := PolicyTerms(cfg, policy, scope, s), StmtTerms(i, cfg, scope, given, s);
    match s
    case Block(_, program, inverse, decorator, _) =>
      if !decorator {
        OptionIsSafe(i, cfg, policy, scope, given, program, most.program, terms.program);
        OptionIsSafe(i, cfg, policy, scope, given, inverse, most.inverse, terms.inverse);
      }
    case Partial(_, _, program, _) => OptionIsSafe(i, cfg, policy, scope, given, program, most.program, terms.program);
    case _ =>
  }

  lemma {:induction false} BodyIsSafe(i: Interp, cfg: Config, policy: Policy, scope: Scope, given: seq<bool>,
      stmts: seq<Stmt>)
    requires Obeys(i, policy) && BodySafeBy(cfg, policy, scope, given, stmts)
    ensures SafeBody(i, cfg, scope, given, stmts)
    decreases stmts, 0
  {
    if stmts != [] {
      StmtIsSafe(i, cfg, policy, scope, given, stmts[0]);
      BodyIsSafe(i, cfg, policy, scope, given, stmts[1..]);
    }
  }

  /** A template found safe under a policy is safe under every interpretation that obeys it. */
  lemma {:induction false} ProgramIsSafe(i: Interp, cfg: Config, policy: Policy, scope: Scope, given: seq<bool>,
      p: Program, gets: bool)
    requires Obeys(i, policy) && SafeBy(cfg, policy, scope, given, p, gets)
    ensures SafeProgram(i, cfg, scope, given, p, gets)
    decreases p, 0
  {
    BodyIsSafe(i, cfg, policy, Inner(scope, p), given + [gets], p.stmts);
  }

  /** The run of the compiled template writes what the template means. */
  ghost predicate SameText(i: Interp, cfg: Config, p: Program, context: Value, data: Value, fuel: nat) {
    RunProgram(i, cfg, CompileProgram(cfg, [], p), Env([context], data, [], []), fuel)
      == EvalProgram(i, cfg, p, Scene([context], data, [], [], ByName), None, fuel)
  }

  /** A template whose lookups are safe under an interpretation runs as it is meant. */
  lemma SafeMeaning(i: Interp, cfg: Config, p: Program, context: Value, data: Value, fuel: nat)
    requires SafeProgram(i, cfg, [], [], p, false) && ProgramCompiles(cfg, [], p) && StraightProgram(cfg, p)
    ensures SameText(i, cfg, p, context, data, fuel)
  {
    hide SafeProgram, EvalProgram, RunProgram;
    var s := Scene([context], data, [], [], BySlot);
    TemplateMeaning(i, cfg, p, context, data, fuel);
    assert ScopeOf(s.frames) == [] && GivenOf(s.frames) == [];
    SameProgram(i, cfg, s, p, None, fuel);
  }

  /** Meaning preservation under a policy. */
  lemma PolicyMeaning(i: Interp, cfg: Config, policy: Policy, p: Program, context: Value, data: Value, fuel: nat)
    requires Obeys(i, policy) && SafeBy(cfg, policy, [], [], p, false)
    requires ProgramCompiles(cfg, [], p) && StraightProgram(cfg, p)
    ensures SameText(i, cfg, p, context, data, fuel)
  {
    ProgramIsSafe(i, cfg, policy, [], [], p, false);
    SafeMeaning(i, cfg, p, context, data, fuel);
  }

  // ---- templates without block parameters

  predicate NamelessOption(p: Option<Program>)
    decreases p, 1
  {
    p.Some? ==> NamelessProgram(p.value)
  }

  predicate NamelessStmt(s: Stmt)
    decreases s, 1
  {
    match s
    case Block(_, program, inverse, _, _) => NamelessOption(program) && NamelessOption(inverse)
    case Partial(_, _, program, _) => NamelessOption(program)
    case _ => true
  }

  predicate NamelessBody(stmts: seq<Stmt>)
    decreases stmts, 0
  {
    stmts == [] || (NamelessStmt(stmts[0]) && NamelessBody(stmts[1..]))
  }

  /** No program in the template declares block parameters. */
  predicate NamelessProgram(p: Program)
    decreases p, 0
  {
    p.param1.None? && p.param2.None? && NamelessBody(p.stmts)
  }

  ghost predicate NamelessScope(scope: Scope) {
    forall n :: 0 <= n < |scope| ==> scope[n] == Names(None, None)
  }

  lemma {:induction false} NamelessOptionIsSafe(cfg: Config, policy: Policy, scope: Scope, given: seq<bool>,
      p: Option<Program>, w: Way)
    requires NamelessScope(scope) && NamelessOption(p)
    ensures OptionSafeBy(cfg, policy, scope, given, p, w)
    decreases p, 1
  {
    if p.Some? {
      NamelessIsSafe(cfg, policy, scope, given, p.value, true);
      NamelessIsSafe(cfg, policy, scope, given, p.value, false);
    }
  }

  lemma {:induction false} NamelessBodyIsSafe(cfg: Config, policy: Policy, scope: Scope, given: seq<bool>,
      stmts: seq<Stmt>)
    requires NamelessScope(scope) && NamelessBody(stmts)
    ensures BodySafeBy(cfg, policy, scope, given, stmts)
    decreases stmts, 0
  {
    if stmts != [] {
      var terms := PolicyTerms(cfg, policy, scope, stmts[0]);
      match stmts[0] {
        case Block(_, program, inverse, _, _) =>
          NamelessOptionIsSafe(cfg, policy, scope, given, program, terms.program);
          NamelessOptionIsSafe(cfg, policy, scope, given, inverse, terms.inverse);
        case Partial(_, _, program, _) => NamelessOptionIsSafe(cfg, policy, scope, given, program, terms.program);
        case _ =>
      }
      NamelessBodyIsSafe(cfg, policy, scope, given, stmts[1..]);
    }
  }

  /** A template without block parameters is safe under every policy. */
  lemma {:induction false} NamelessIsSafe(cfg: Config, policy: Policy, scope: Scope, given: seq<bool>, p: Program,
      gets: bool)
    requires NamelessScope(scope) && NamelessProgram(p)
    ensures SafeBy(cfg, policy, scope, given, p, gets)
    decreases p, 0
  {
    var inner, ops := Inner(scope, p), BodyOps(cfg, Inner(scope, p), p.stmts, 0);
    LexicalBody(cfg, inner, p.stmts, 0);
    forall n | 0 <= n < |ops| ensures !ops[n].LookupBlockParam? {
      if ops[n].LookupBlockParam? { ResolveIsLexical(inner, ops[n].parts[0]); }
    }
    BodySoundOps(cfg, inner, given + [gets], p.stmts, 0);
    NamelessBodyIsSafe(cfg, policy, inner, given + [gets], p.stmts);
  }
}

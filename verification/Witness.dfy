/**
 An interpretation that tells by slot from by name. Its callees render one program at each depth, as a plan says;
 whoever is given parameters is given a sign of its own; and every value shows in a text whose length says nothing
 about it, so that texts differ as soon as one value does.
 */
module Witness {
  import opened HbsString
  import opened Options
  import opened AssocList
  import opened Ast
  import opened CodeGen
  import opened Vm
  import opened Eval
  import opened Slots
  import opened Safety
  import opened Policies

  /** Whose program is rendered at one depth, which of the two, and whether it gets parameters. */
  datatype Choice = Choice(callee: Callee, inverse: bool, gives: bool)

  // ---- texts for values

  function Blank(width: nat): (t: string)
    ensures |t| == width && forall n :: 0 <= n < width ==> t[n] == ' '
  {
    seq(width, _ => ' ')
  }

  function Hot(width: nat, k: nat): (t: string)
    ensures |t| == width && forall n :: 0 <= n < width ==> t[n] == if n == k then 'x' else ' '
  {
    seq(width, n => if n == k then 'x' else ' ')
  }

  /** The parameters given to the program at depth k. */
  function Sign(width: nat, k: nat): Value {
    VArray([VStr(Hot(width, k)), VStr(Hot(width, k))])
  }

  function Text(width: nat, v: Value): string {
    if v.VHash? then EntriesText(width, v.entries) else PlainText(width, v)
  }

  function PlainText(width: nat, v: Value): string {
    match v
    case VNull => Blank(width)
    case VStr(s) => s
    case _ => ""
  }

  /** The values in a hash are never hashes here. */
  function EntriesText(width: nat, entries: seq<Pair<Value>>): string {
    if entries == [] then "" else PlainText(width, entries[0].value) + EntriesText(width, entries[1..])
  }

  function Texts(width: nat, vs: seq<Value>): string {
    if vs == [] then "" else Text(width, vs[0]) + Texts(width, vs[1..])
  }

  function KindText(width: nat, k: Kind): string {
    match k
    case HelperCall(_, _, v) => Text(width, v)
    case AmbiguousCall(_, v, _, _) => Text(width, v)
    case LambdaCall(v) => Text(width, v)
    case PartialCall(name, _) => if name.Some? then Text(width, name.value) else ""
    case _ => ""
  }

  function CallText(width: nat, c: Call): string {
    KindText(width, c.kind) + Texts(width, c.args) + Text(width, c.hash)
  }

  /** A number for every name, so that only equal keys are taken for equal. */
  function NameNumber(s: string): nat {
    if s == "" then 0 else 1 + s[0] as int + 0x11_0000 * NameNumber(s[1..])
  }

  lemma {:induction false} NamesTold(s: string, t: string)
    requires NameNumber(s) == NameNumber(t)
    ensures s == t
  {
    if s != "" && t != "" {
      var a, b := s[0] as int, t[0] as int;
      var m, n := NameNumber(s[1..]), NameNumber(t[1..]);
      assert a + 0x11_0000 * m == b + 0x11_0000 * n;
      DigitsTold(a, m, b, n);
      NamesTold(s[1..], t[1..]);
      assert s == [s[0]] + s[1..] && t == [t[0]] + t[1..];
    }
  }

  lemma DigitsTold(a: nat, m: nat, b: nat, n: nat)
    requires a < 0x11_0000 && b < 0x11_0000 && a + 0x11_0000 * m == b + 0x11_0000 * n
    ensures a == b && m == n
  {
  }

  // ---- the interpretation

  /** Everything above depth |plan| renders nothing. */
  function Act(plan: seq<Choice>, c: Call, texts: seq<string>): Action {
    var width, depth := |plan| + 1, |c.env.contexts| - 1;
    if texts == [] && 0 <= depth < |plan| && plan[depth].callee == CalleeOf(c.kind) then
      Render(plan[depth].inverse, VNull, None, if plan[depth].gives then Some(Sign(width, depth + 1)) else None, None)
    else Return(VStr(CallText(width, c) + if texts == [] then "" else texts[0]))
  }

  function Scout(cfg: Config, plan: seq<Choice>): Interp {
    Interp((c: Call, texts: seq<string>) => Act(plan, c, texts),
      _ => false, cfg.known, (v, _, _) => v, (_, _) => false, (_, _) => None,
      (_, _, _, _, _) => Ok(VInt(0)), (_, _, _, _) => Ok(VInt(0)),
      (v, _) => Text(|plan| + 1, v), (text, _) => text, NameNumber)
  }

  function WayOf(terms: Terms, inverse: bool): Way {
    if inverse then terms.inverse else terms.program
  }

  predicate Permits(policy: Policy, c: Choice) {
    var w := WayOf(policy(c.callee), c.inverse);
    if c.gives then w.give else w.omit
  }

  lemma ScoutObeys(cfg: Config, policy: Policy, plan: seq<Choice>)
    requires forall n :: 0 <= n < |plan| ==> Permits(policy, plan[n])
    ensures Obeys(Scout(cfg, plan), policy)
  {
    hide Sign, CallText;
    var i := Scout(cfg, plan);
    forall c: Call, texts | i.act(c, texts).Render?
      ensures Allowed(WayOf(policy(CalleeOf(c.kind)), i.act(c, texts).inverse), i.act(c, texts))
    {
      assert Permits(policy, plan[|c.env.contexts| - 1]);
    }
  }

  /** At depth n the scene has n + 1 contexts, all null, and n + 1 frames, each with its own sign, if any. */
  predicate Tracked(width: nat, s: Scene) {
    && 0 < |s.contexts| == |s.frames| <= width
    && (forall k :: 0 <= k < |s.contexts| ==> s.contexts[k] == VNull)
    && forall k :: 0 <= k < |s.frames| && s.frames[k].params.Some? ==> s.frames[k].params.value == Sign(width, k)
  }

  // ---- lookups

  lemma HotTells(width: nat, j: nat, k: nat)
    requires j < width
    ensures Hot(width, j) == Hot(width, k) <==> j == k
    ensures Hot(width, j) != Blank(width)
  {
    assert Hot(width, j)[j] == 'x' && Blank(width)[j] == ' ';
    assert j != k ==> Hot(width, k)[j] == ' ';
  }

  /** The values are no hashes and have texts of the same length. */
  predicate Even(width: nat, v: Value, w: Value) {
    !v.VHash? && !w.VHash? && |Text(width, v)| == |Text(width, w)|
  }

  predicate EvenResults(width: nat, a: Result<Value>, b: Result<Value>) {
    a.Ok? && b.Ok? && Even(width, a.value, b.value)
  }

  /** And their texts differ. */
  predicate Told(width: nat, a: Result<Value>, b: Result<Value>) {
    a.Ok? && b.Ok? && Text(width, a.value) != Text(width, b.value)
  }

  /** The text of what a lookup finds in frame n, if there is one, and if it was given parameters. */
  function FrameText(width: nat, n: Option<nat>): string {
    if n.Some? then Hot(width, n.value) else Blank(width)
  }

  lemma SignItem(width: nat, k: nat, param: nat)
    requires param <= 1
    ensures Item(Sign(width, k), param) == Some(VStr(Hot(width, k)))
  {
    hide Hot;
  }

  lemma NoMembers(cfg: Config, plan: seq<Choice>, v: Value, names: seq<string>)
    ensures Descend(Scout(cfg, plan), v, names) == v
  {
    hide Act, Text;
  }

  /** What is found for a resolved name, with or without members behind it. */
  lemma FoundText(cfg: Config, plan: seq<Choice>, s: Scene, p: Path, strict: bool, found: Option<Value>)
    requires p.depth == 0 && !ScopedId(p) && p.parts != [] && Found(s, p.parts[0]) == Some(found)
    ensures EvalPath(Scout(cfg, plan), s, p, strict) == Ok(found.GetOr(VNull))
  {
    hide Scout, ScopedId, Found;
    if found.Some? { NoMembers(cfg, plan, found.value, p.parts[1..]); }
  }

  lemma SlotText(cfg: Config, plan: seq<Choice>, s: Scene, p: Path, strict: bool)
    requires s.naming.BySlot? && Tracked(|plan| + 1, s) && ResolvePath(ScopeOf(s.frames), p).Some?
    ensures var v := EvalPath(Scout(cfg, plan), s, p, strict);
      var depth := ResolvePath(ScopeOf(s.frames), p).value.depth;
      && v.Ok? && !v.value.VHash?
      && Text(|plan| + 1, v.value) == FrameText(|plan| + 1, SlotFrame(GivenOf(s.frames), depth))
  {
    hide SlotFrame, Resolve, ParamsOf, ScopeOf, GivenOf, Hot, Blank, Sign, Scout, EvalPath, ScopedId;
    var width, r := |plan| + 1, Resolve(ScopeOf(s.frames), p.parts[0]).value;
    SlotHoldsFrame(s.frames, r.depth);
    ParamIsFirstOrSecond(ScopeOf(s.frames), p.parts[0]);
    var slot := SlotFrame(GivenOf(s.frames), r.depth);
    if slot.Some? { SignItem(width, slot.value, r.param); }
    FoundText(cfg, plan, s, p, strict, if slot.Some? then Some(VStr(Hot(width, slot.value))) else None);
  }

  lemma NameText(cfg: Config, plan: seq<Choice>, s: Scene, p: Path, strict: bool)
    requires s.naming.ByName? && Tracked(|plan| + 1, s) && ResolvePath(ScopeOf(s.frames), p).Some?
    ensures var v := EvalPath(Scout(cfg, plan), s, p, strict);
      var depth := ResolvePath(ScopeOf(s.frames), p).value.depth;
      var own := |s.frames| - 1 - depth;
      v.Ok? && !v.value.VHash? && depth < |s.frames|
        && Text(|plan| + 1, v.value) == FrameText(|plan| + 1, if s.frames[own].params.Some? then Some(own) else None)
  {
    hide Resolve, ParamsOf, ScopeOf, GivenOf, Hot, Blank, Bound, Sign, Scout, EvalPath, ScopedId;
    var width, r := |plan| + 1, Resolve(ScopeOf(s.frames), p.parts[0]).value;
    BoundIsResolved(s.frames, p.parts[0]);
    ParamIsFirstOrSecond(ScopeOf(s.frames), p.parts[0]);
    var own := |s.frames| - 1 - r.depth;
    SignItem(width, own, r.param);
    FoundText(cfg, plan, s, p, strict, if s.frames[own].params.Some? then Some(VStr(Hot(width, own))) else None);
  }

  /** A lookup gives texts of one length, and different ones if it is not sound. */
  lemma PathEven(cfg: Config, plan: seq<Choice>, s: Scene, p: Path, strict: bool)
    requires s.naming.BySlot? && Tracked(|plan| + 1, s)
    ensures var i := Scout(cfg, plan);
      var a, b := EvalPath(i, s, p, strict), EvalPath(i, Named(s), p, strict);
      && EvenResults(|plan| + 1, a, b)
      && (!PathSound(ScopeOf(s.frames), GivenOf(s.frames), p) ==> Told(|plan| + 1, a, b))
  {
    hide Hot, Blank;
    var width, r := |plan| + 1, ResolvePath(ScopeOf(s.frames), p);
    if r.Some? {
      hide EvalPath, Resolve, ParamsOf, ScopeOf, SlotFrame;
      SlotText(cfg, plan, s, p, strict);
      NameText(cfg, plan, Named(s), p, strict);
      var depth := r.value.depth;
      var slot, own := SlotFrame(GivenOf(s.frames), depth), |s.frames| - 1 - depth;
      var named := if s.frames[own].params.Some? then Some(own) else None;
      assert PathSound(ScopeOf(s.frames), GivenOf(s.frames), p) <==> slot == named;
      FramesTold(width, slot, named, |s.frames|, GivenOf(s.frames), depth);
    } else {
      hide ResolvePath, ScopeOf, Found;
      Unresolved(s, p);
      OtherPath(cfg, plan, s, p, strict);
    }
  }

  lemma FramesTold(width: nat, a: Option<nat>, b: Option<nat>, frames: nat, given: seq<bool>, depth: nat)
    requires a == SlotFrame(given, depth) && |given| == frames <= width && (b.Some? ==> b.value < frames)
    ensures |FrameText(width, a)| == |FrameText(width, b)| == width
    ensures a != b ==> FrameText(width, a) != FrameText(width, b)
  {
    SlotIsOwnExactly(given, depth);
    if a.Some? { HotTells(width, a.value, if b.Some? then b.value else 0); }
    if b.Some? { HotTells(width, b.value, if a.Some? then a.value else 0); }
  }

  lemma OtherPath(cfg: Config, plan: seq<Choice>, s: Scene, p: Path, strict: bool)
    requires s.naming.BySlot? && Tracked(|plan| + 1, s) && ResolvePath(ScopeOf(s.frames), p).None?
    ensures var v := EvalPath(Scout(cfg, plan), s, p, strict);
      v.Ok? && !v.value.VHash?
  {
    hide Sign, ParamsOf, Hot;
  }

  /** A path that is no block parameter is looked up in the same way. */
  lemma Unresolved(s: Scene, p: Path)
    requires s.naming.BySlot? && ResolvePath(ScopeOf(s.frames), p).None?
    ensures forall i: Interp, strict :: EvalPath(i, s, p, strict) == EvalPath(i, Named(s), p, strict)
  {
    if p.parts != [] { BoundIsResolved(s.frames, p.parts[0]); }
  }

  // ---- templates in which every value shows

  predicate DistinctKeys(pairs: seq<HashPair>) {
    forall a, b :: 0 <= a < b < |pairs| ==> pairs[a].key != pairs[b].key
  }

  predicate TidyExpr(e: Expr)
    decreases e, 0
  {
    e.SubExpr? ==> TidyArgs(e.call.args)
  }

  predicate TidyParams(params: seq<Expr>)
    decreases params, 0
  {
    params == [] || (TidyExpr(params[0]) && TidyParams(params[1..]))
  }

  predicate TidyPairs(pairs: seq<HashPair>)
    decreases pairs, 0
  {
    pairs == [] || (TidyExpr(pairs[0].value) && TidyPairs(pairs[1..]))
  }

  predicate TidyArgs(args: Args)
    decreases args, 0
  {
    TidyParams(args.params) && (args.hash.Hash? ==> DistinctKeys(args.hash.pairs) && TidyPairs(args.hash.pairs))
  }

  predicate TidyOption(p: Option<Program>)
    decreases p, 1
  {
    p.Some? ==> TidyProgram(p.value)
  }

  predicate TidyStmt(s: Stmt)
    decreases s, 1
  {
    match s
    case Content(_) => true
    case Comment => true
    case Mustache(call, _, decorator) => !decorator && TidyArgs(call.args)
    case Block(call, program, inverse, decorator, _) =>
      !decorator && TidyArgs(call.args) && TidyOption(program) && TidyOption(inverse)
    case RawBlock(call, _) => TidyArgs(call.args)
    case Partial(name, args, program, _) =>
      |args.params| <= 1 && (name.Dynamic? ==> TidyArgs(name.call.args)) && TidyArgs(args) && TidyOption(program)
  }

  predicate TidyBody(stmts: seq<Stmt>)
    decreases stmts, 0
  {
    stmts == [] || (TidyStmt(stmts[0]) && TidyBody(stmts[1..]))
  }

  /** No decorators, no key twice in one hash, and no partial with more than one parameter, which would not compile. */
  predicate TidyProgram(p: Program)
    decreases p, 0
  {
    TidyBody(p.stmts)
  }

  // ---- what a callee returns

  /** There is fuel for what is left of the plan. */
  predicate Enough(plan: seq<Choice>, s: Scene, fuel: nat) {
    |s.contexts| + fuel > |plan|
  }

  /** The text the callee has rendered when it returns. */
  function Rendered(cfg: Config, plan: seq<Choice>, s: Scene, callee: Callee, program: Option<Program>,
      inverse: Option<Program>, fuel: nat): Result<string>
  {
    var depth := |s.contexts| - 1;
    if 0 <= depth < |plan| && plan[depth].callee == callee then
      var which := if plan[depth].inverse then inverse else program;
      if fuel == 0 then OutOfFuel
      else if which.None? then Ok("")
      else RenderedProgram(cfg, plan, s, which.value, fuel)
    else Ok("")
  }

  function PlannedParams(plan: seq<Choice>, s: Scene): Option<Value>
    requires 0 < |s.contexts| <= |plan|
  {
    if plan[|s.contexts| - 1].gives then Some(Sign(|plan| + 1, |s.contexts|)) else None
  }

  /** A context is added for every program that is rendered. */
  function Within(s: Scene): Scene {
    s.(contexts := s.contexts + [VNull])
  }

  function RenderedProgram(cfg: Config, plan: seq<Choice>, s: Scene, p: Program, fuel: nat): Result<string>
    requires 0 < |s.contexts| <= |plan| && fuel > 0
  {
    EvalProgram(Scout(cfg, plan), cfg, p, Within(s), PlannedParams(plan, s), fuel - 1)
  }

  lemma ActText(cfg: Config, plan: seq<Choice>, s: Scene, c: Call, program: Option<Program>, inverse: Option<Program>,
      fuel: nat)
    requires c.env == View(s) && s.contexts != []
    ensures var t := Rendered(cfg, plan, s, CalleeOf(c.kind), program, inverse, fuel);
      EvalAct(Scout(cfg, plan), cfg, s, c, program, inverse, [], fuel)
        == if t.Ok? then Ok(VStr(CallText(|plan| + 1, c) + t.value)) else t.PropagateFailure()
  {
    hide EvalProgram, CallText, Sign, ParamsOf, CalleeOf;
    var i := Scout(cfg, plan);
    var a := i.act(c, []);
    if a.Render? && fuel > 0 {
      assert EnterScene(i, s, a) == Within(s);
      var t := Rendered(cfg, plan, s, CalleeOf(c.kind), program, inverse, fuel);
      if t.Ok? {
        assert [] + [t.value] == [t.value];
        assert i.act(c, [t.value]) == Return(VStr(CallText(|plan| + 1, c) + t.value));
      }
    } else if a.Return? {
      assert CallText(|plan| + 1, c) + "" == CallText(|plan| + 1, c);
    }
  }

  predicate EvenTexts(a: Result<string>, b: Result<string>) {
    a.Ok? && b.Ok? && |a.value| == |b.value|
  }

  /** The callee renders texts of one length, by slot and by name. */
  predicate RendersEven(cfg: Config, plan: seq<Choice>, s: Scene, callee: Callee, program: Option<Program>,
      inverse: Option<Program>, fuel: nat) {
    EvenTexts(Rendered(cfg, plan, s, callee, program, inverse, fuel),
      Rendered(cfg, plan, Named(s), callee, program, inverse, fuel))
  }

  /** And not the same. */
  predicate RendersTold(cfg: Config, plan: seq<Choice>, s: Scene, callee: Callee, program: Option<Program>,
      inverse: Option<Program>, fuel: nat) {
    Rendered(cfg, plan, s, callee, program, inverse, fuel)
      != Rendered(cfg, plan, Named(s), callee, program, inverse, fuel)
  }

  lemma ConcatTold(a: string, b: string, c: string, d: string)
    requires |a| == |c|
    ensures a + b == c + d <==> a == c && b == d
  {
    assert (a + b)[..|a|] == a && (a + b)[|a|..] == b;
    assert (c + d)[..|c|] == c && (c + d)[|c|..] == d;
  }

  /** Two calls of one callee that differ in their values only. */
  lemma ActEven(cfg: Config, plan: seq<Choice>, s: Scene, c: Call, d: Call, program: Option<Program>,
      inverse: Option<Program>, fuel: nat)
    requires s.contexts != [] && c.env == d.env == View(s) && CalleeOf(c.kind) == CalleeOf(d.kind)
    requires |CallText(|plan| + 1, c)| == |CallText(|plan| + 1, d)|
    requires RendersEven(cfg, plan, s, CalleeOf(c.kind), program, inverse, fuel)
    ensures var a := EvalAct(Scout(cfg, plan), cfg, s, c, program, inverse, [], fuel);
      var b := EvalAct(Scout(cfg, plan), cfg, Named(s), d, program, inverse, [], fuel);
      && EvenResults(|plan| + 1, a, b) && a.value.VStr? && b.value.VStr?
      && (CallText(|plan| + 1, c) != CallText(|plan| + 1, d) ==> Told(|plan| + 1, a, b))
      && (RendersTold(cfg, plan, s, CalleeOf(c.kind), program, inverse, fuel) ==> Told(|plan| + 1, a, b))
  {
    hide EvalAct, CallText, Rendered, Scout, ParamsOf, CalleeOf;
    ActText(cfg, plan, s, c, program, inverse, fuel);
    ActText(cfg, plan, Named(s), d, program, inverse, fuel);
    var t := Rendered(cfg, plan, s, CalleeOf(c.kind), program, inverse, fuel);
    var u := Rendered(cfg, plan, Named(s), CalleeOf(c.kind), program, inverse, fuel);
    ConcatTold(CallText(|plan| + 1, c), t.value, CallText(|plan| + 1, d), u.value);
  }

  lemma NothingRendered(cfg: Config, plan: seq<Choice>, s: Scene, callee: Callee, fuel: nat)
    requires Enough(plan, s, fuel)
    ensures RendersEven(cfg, plan, s, callee, None, None, fuel)
  {
  }

  // ---- expressions

  /** Values in order, each of them even. */
  predicate EvenAll(width: nat, vs: seq<Value>, ws: seq<Value>) {
    |vs| == |ws| && forall n :: 0 <= n < |vs| ==> Even(width, vs[n], ws[n])
  }

  lemma {:induction false} TextsEven(width: nat, vs: seq<Value>, ws: seq<Value>)
    requires EvenAll(width, vs, ws)
    ensures |Texts(width, vs)| == |Texts(width, ws)|
  {
    if vs != [] { TextsEven(width, vs[1..], ws[1..]); }
  }

  lemma {:induction false} ExprEven(cfg: Config, plan: seq<Choice>, s: Scene, e: Expr, fuel: nat)
    requires s.naming.BySlot? && Tracked(|plan| + 1, s) && Enough(plan, s, fuel) && TidyExpr(e)
    ensures var a := EvalExpr(Scout(cfg, plan), cfg, s, e, fuel);
      var b := EvalExpr(Scout(cfg, plan), cfg, Named(s), e, fuel);
      && EvenResults(|plan| + 1, a, b)
      && (!ExprSound(cfg, ScopeOf(s.frames), GivenOf(s.frames), e) ==> Told(|plan| + 1, a, b))
    decreases e, 0
  {
    hide EvalPath, EvalCall, PathSound, CallSound, Tracked, ScopeOf, GivenOf, Scout;
    match e
    case PathExpr(p) => PathEven(cfg, plan, s, p, false);
    case LitExpr(l) =>
    case SubExpr(call) =>
      forall callee: Callee ensures RendersEven(cfg, plan, s, callee, None, None, fuel) {
        NothingRendered(cfg, plan, s, callee, fuel);
      }
      CallEven(cfg, plan, s, call, true, None, None, "", fuel);
  }

  lemma {:induction false} ParamsEven(cfg: Config, plan: seq<Choice>, s: Scene, params: seq<Expr>, fuel: nat)
    requires s.naming.BySlot? && Tracked(|plan| + 1, s) && Enough(plan, s, fuel) && TidyParams(params)
    ensures var a := EvalParams(Scout(cfg, plan), cfg, s, params, fuel);
      var b := EvalParams(Scout(cfg, plan), cfg, Named(s), params, fuel);
      && a.Ok? && b.Ok? && EvenAll(|plan| + 1, a.value, b.value)
      && (!ParamsSound(cfg, ScopeOf(s.frames), GivenOf(s.frames), params) ==>
        Texts(|plan| + 1, a.value) != Texts(|plan| + 1, b.value))
    decreases params, 0
  {
    hide EvalExpr, ExprSound, Tracked, ScopeOf, GivenOf, Scout, Enough, Text;
    if params != [] {
      ExprEven(cfg, plan, s, params[0], fuel);
      ParamsEven(cfg, plan, s, params[1..], fuel);
      OneMoreEven(|plan| + 1, EvalExpr(Scout(cfg, plan), cfg, s, params[0], fuel).value,
        EvalParams(Scout(cfg, plan), cfg, s, params[1..], fuel).value,
        EvalExpr(Scout(cfg, plan), cfg, Named(s), params[0], fuel).value,
        EvalParams(Scout(cfg, plan), cfg, Named(s), params[1..], fuel).value);
    }
  }

  lemma {:induction false} ValuesEven(cfg: Config, plan: seq<Choice>, s: Scene, pairs: seq<HashPair>, fuel: nat)
    requires s.naming.BySlot? && Tracked(|plan| + 1, s) && Enough(plan, s, fuel) && TidyPairs(pairs)
    ensures var a := EvalValues(Scout(cfg, plan), cfg, s, pairs, fuel);
      var b := EvalValues(Scout(cfg, plan), cfg, Named(s), pairs, fuel);
      && a.Ok? && b.Ok? && EvenAll(|plan| + 1, a.value, b.value)
      && (!ValuesSound(cfg, ScopeOf(s.frames), GivenOf(s.frames), pairs) ==>
        Texts(|plan| + 1, a.value) != Texts(|plan| + 1, b.value))
    decreases pairs, 0
  {
    hide EvalExpr, ExprSound, Tracked, ScopeOf, GivenOf, Scout, Enough, Text;
    if pairs != [] {
      ExprEven(cfg, plan, s, pairs[0].value, fuel);
      ValuesEven(cfg, plan, s, pairs[1..], fuel);
      OneMoreEven(|plan| + 1, EvalExpr(Scout(cfg, plan), cfg, s, pairs[0].value, fuel).value,
        EvalValues(Scout(cfg, plan), cfg, s, pairs[1..], fuel).value,
        EvalExpr(Scout(cfg, plan), cfg, Named(s), pairs[0].value, fuel).value,
        EvalValues(Scout(cfg, plan), cfg, Named(s), pairs[1..], fuel).value);
    }
  }

  lemma OneMoreEven(width: nat, v: Value, vs: seq<Value>, w: Value, ws: seq<Value>)
    requires Even(width, v, w) && EvenAll(width, vs, ws)
    ensures EvenAll(width, [v] + vs, [w] + ws)
    ensures Texts(width, [v] + vs) == Texts(width, [w] + ws) <==>
      Text(width, v) == Text(width, w) && Texts(width, vs) == Texts(width, ws)
  {
    hide Text;
    assert ([v] + vs)[1..] == vs && ([w] + ws)[1..] == ws;
    ConcatTold(Text(width, v), Texts(width, vs), Text(width, w), Texts(width, ws));
  }

  // ---- hashes

  lemma {:induction false} PutNew(s: seq<Pair<Value>>, k: HString, v: Value)
    requires forall n :: 0 <= n < |s| ==> !Eq(s[n].key, k)
    ensures Put(s, k, v) == s + [Pair(k, v)]
  {
    if s != [] {
      assert !Eq(s[0].key, k);
      PutNew(s[1..], k, v);
      assert s == [s[0]] + s[1..];
    }
  }

  /** With distinct keys, every value of a literal is in the dictionary. */
  lemma {:induction false} DictionaryIs(cfg: Config, plan: seq<Choice>, pairs: seq<HashPair>, vs: seq<Value>)
    requires |pairs| == |vs| && DistinctKeys(pairs)
    ensures var d := Dictionary(Scout(cfg, plan), pairs, vs);
      && |d| == |pairs|
      && forall n :: 0 <= n < |d| ==>
        d[n] == Pair(HString(pairs[|d| - 1 - n].key, NameNumber(pairs[|d| - 1 - n].key)), vs[|d| - 1 - n])
  {
    if pairs != [] {
      var rest, vrest := pairs[1..], vs[1..];
      DictionaryIs(cfg, plan, rest, vrest);
      var d, k := Dictionary(Scout(cfg, plan), rest, vrest), HString(pairs[0].key, NameNumber(pairs[0].key));
      forall n | 0 <= n < |d| ensures !Eq(d[n].key, k) {
        assert pairs[0].key != pairs[1 + (|d| - 1 - n)].key;
        if NameNumber(pairs[1 + (|d| - 1 - n)].key) == NameNumber(pairs[0].key) {
          NamesTold(pairs[1 + (|d| - 1 - n)].key, pairs[0].key);
        }
      }
      PutNew(d, k, vs[0]);
    }
  }

  lemma {:induction false} EntriesEven(width: nat, a: seq<Pair<Value>>, b: seq<Pair<Value>>)
    requires |a| == |b| && forall n :: 0 <= n < |a| ==> Even(width, a[n].value, b[n].value)
    ensures |EntriesText(width, a)| == |EntriesText(width, b)|
    ensures EntriesText(width, a) == EntriesText(width, b) <==>
      forall n :: 0 <= n < |a| ==> Text(width, a[n].value) == Text(width, b[n].value)
  {
    hide PlainText;
    if a != [] {
      EntriesEven(width, a[1..], b[1..]);
      assert Even(width, a[0].value, b[0].value);
      ConcatTold(PlainText(width, a[0].value), EntriesText(width, a[1..]), PlainText(width, b[0].value),
        EntriesText(width, b[1..]));
      assert forall n :: 1 <= n < |a| ==> a[n] == a[1..][n - 1] && b[n] == b[1..][n - 1];
      assert forall n :: 0 <= n < |a| - 1 ==> a[1..][n] == a[n + 1] && b[1..][n] == b[n + 1];
    }
  }

  lemma {:induction false} TextsSame(width: nat, vs: seq<Value>, ws: seq<Value>)
    requires EvenAll(width, vs, ws) && forall n :: 0 <= n < |vs| ==> Text(width, vs[n]) == Text(width, ws[n])
    ensures Texts(width, vs) == Texts(width, ws)
  {
    hide Text;
    if vs != [] { TextsSame(width, vs[1..], ws[1..]); }
  }

  lemma DictionariesEven(cfg: Config, plan: seq<Choice>, pairs: seq<HashPair>, vs: seq<Value>, ws: seq<Value>)
    requires |pairs| == |vs| && EvenAll(|plan| + 1, vs, ws) && DistinctKeys(pairs)
    ensures var d := EntriesText(|plan| + 1, Dictionary(Scout(cfg, plan), pairs, vs));
      var e := EntriesText(|plan| + 1, Dictionary(Scout(cfg, plan), pairs, ws));
      |d| == |e| && (Texts(|plan| + 1, vs) != Texts(|plan| + 1, ws) ==> d != e)
  {
    hide Dictionary, Text, EntriesText, Texts;
    var width := |plan| + 1;
    var d, e := Dictionary(Scout(cfg, plan), pairs, vs), Dictionary(Scout(cfg, plan), pairs, ws);
    DictionaryIs(cfg, plan, pairs, vs);
    DictionaryIs(cfg, plan, pairs, ws);
    EntriesEven(width, d, e);
    if EntriesText(width, d) == EntriesText(width, e) {
      forall n | 0 <= n < |vs| ensures Text(width, vs[n]) == Text(width, ws[n]) {
        assert d[|d| - 1 - n].value == vs[n] && e[|d| - 1 - n].value == ws[n];
      }
      TextsSame(width, vs, ws);
    }
  }

  /** Hashes have texts of one length, and different ones if one of their values does. */
  lemma {:induction false} HashEven(cfg: Config, plan: seq<Choice>, s: Scene, hash: Hash, fuel: nat)
    requires s.naming.BySlot? && Tracked(|plan| + 1, s) && Enough(plan, s, fuel)
    requires hash.Hash? ==> DistinctKeys(hash.pairs) && TidyPairs(hash.pairs)
    ensures var a := EvalHash(Scout(cfg, plan), cfg, s, hash, fuel);
      var b := EvalHash(Scout(cfg, plan), cfg, Named(s), hash, fuel);
      && a.Ok? && b.Ok? && |Text(|plan| + 1, a.value)| == |Text(|plan| + 1, b.value)|
      && (!HashSound(cfg, ScopeOf(s.frames), GivenOf(s.frames), hash) ==> Told(|plan| + 1, a, b))
    decreases hash, 0
  {
    hide EvalValues, ValuesSound, Tracked, ScopeOf, GivenOf, Scout, Enough, Dictionary, EntriesText, Texts;
    if hash.Hash? {
      ValuesEven(cfg, plan, s, hash.pairs, fuel);
      DictionariesEven(cfg, plan, hash.pairs, EvalValues(Scout(cfg, plan), cfg, s, hash.pairs, fuel).value,
        EvalValues(Scout(cfg, plan), cfg, Named(s), hash.pairs, fuel).value);
    }
  }

  lemma {:induction false} CallEven(cfg: Config, plan: seq<Choice>, s: Scene, call: CallExpr, sub: bool,
      program: Option<Program>, inverse: Option<Program>, text: string, fuel: nat)
    requires s.naming.BySlot? && Tracked(|plan| + 1, s) && Enough(plan, s, fuel) && TidyArgs(call.args)
    requires forall callee: Callee :: RendersEven(cfg, plan, s, callee, program, inverse, fuel)
    ensures var a := EvalCall(Scout(cfg, plan), cfg, s, call, sub, program, inverse, text, fuel);
      var b := EvalCall(Scout(cfg, plan), cfg, Named(s), call, sub, program, inverse, text, fuel);
      && EvenResults(|plan| + 1, a, b)
      && (!CallSound(cfg, ScopeOf(s.frames), GivenOf(s.frames), call, sub) ==> Told(|plan| + 1, a, b))
      && (CalleeTold(cfg, plan, s, call, sub, program, inverse, fuel) ==> Told(|plan| + 1, a, b))
    decreases call, 0
  {
    hide EvalParams, EvalHash, EvalPath, EvalAct, EvalKnown, EvalUnknown, EvalAmbiguous, PathSound, ArgsSound, Classify,
      HeadPath, GivenOf, ScopeOf, ParamsOf, Tracked, Rendered, Text, Texts, RendersTold, RendersEven, Scout, Enough,
      TidyArgs, ArgsTold, ArgsEven;
    ScoutShows(cfg, plan);
    var p := HeadPath(call.head);
    HasContext(|plan| + 1, s);
    match Classify(cfg, ScopeOf(s.frames), call, sub)
    case Helper =>
      ArgsAreEven(cfg, plan, s, call.args, fuel);
      if IsKnownHelper(cfg, p) {
        KnownEven(cfg, plan, s, p.parts[0], call.args, program, inverse, fuel);
      } else {
        PathEven(cfg, plan, s, p, true);
        UnknownEven(cfg, plan, s, p, call.args, program, inverse, fuel);
      }
    case Simple => PathEven(cfg, plan, s, p, true);
    case Ambiguous =>
      AmbiguousIsName(cfg, ScopeOf(s.frames), call, sub);
      PathEven(cfg, plan, s, p, true);
      AmbiguousEven(cfg, plan, s, p, text, program, inverse, fuel);
  }

  lemma {:induction false} ArgsAreEven(cfg: Config, plan: seq<Choice>, s: Scene, args: Args, fuel: nat)
    requires s.naming.BySlot? && Tracked(|plan| + 1, s) && Enough(plan, s, fuel) && TidyArgs(args)
    ensures ArgsEven(cfg, plan, s, args, fuel)
    ensures !ArgsSound(cfg, ScopeOf(s.frames), GivenOf(s.frames), args) ==> ArgsTold(cfg, plan, s, args, fuel)
    decreases args, 0
  {
    hide EvalParams, EvalHash, ParamsSound, HashSound, ArgsSound, GivenOf, ScopeOf, Tracked, Text, Texts, Scout;
    ParamsEven(cfg, plan, s, args.params, fuel);
    HashEven(cfg, plan, s, args.hash, fuel);
    ArgsSoundParts(cfg, ScopeOf(s.frames), GivenOf(s.frames), args);
  }

  lemma ArgsSoundParts(cfg: Config, scope: Scope, given: seq<bool>, args: Args)
    ensures ArgsSound(cfg, scope, given, args) <==>
      ParamsSound(cfg, scope, given, args.params) && HashSound(cfg, scope, given, args.hash)
  {
  }

  lemma HasContext(width: nat, s: Scene)
    requires Tracked(width, s)
    ensures s.contexts != []
  {
  }

  lemma AmbiguousIsName(cfg: Config, scope: Scope, call: CallExpr, sub: bool)
    requires Classify(cfg, scope, call, sub).Ambiguous?
    ensures HeadPath(call.head).parts != [] && !IsKnownHelper(cfg, HeadPath(call.head))
  {
  }

  /** The callee a call is made to first. */
  function FirstCallee(cfg: Config, scope: Scope, call: CallExpr, sub: bool): Option<Callee> {
    var p := HeadPath(call.head);
    match Classify(cfg, scope, call, sub)
    case Helper => Some(if IsKnownHelper(cfg, p) then KnownNamed(p.parts[0]) else HelperNamed(p.original))
    case Simple => None
    case Ambiguous => Some(ValueNamed(p.parts[0]))
  }

  predicate CalleeTold(cfg: Config, plan: seq<Choice>, s: Scene, call: CallExpr, sub: bool, program: Option<Program>,
      inverse: Option<Program>, fuel: nat) {
    var callee := FirstCallee(cfg, ScopeOf(s.frames), call, sub);
    callee.Some? && RendersTold(cfg, plan, s, callee.value, program, inverse, fuel)
  }

  lemma CallTextEven(width: nat, k: Kind, l: Kind, vs: seq<Value>, ws: seq<Value>, h: Value, g: Value, env: Env,
      c: Call, d: Call)
    requires c == Call(k, vs, h, c.hasProgram, c.hasInverse, env)
    requires d == Call(l, ws, g, d.hasProgram, d.hasInverse, env)
    requires |KindText(width, k)| == |KindText(width, l)| && |Texts(width, vs)| == |Texts(width, ws)|
    requires |Text(width, h)| == |Text(width, g)|
    ensures |CallText(width, c)| == |CallText(width, d)|
    ensures CallText(width, c) == CallText(width, d) <==>
      && KindText(width, k) == KindText(width, l)
      && Texts(width, vs) == Texts(width, ws)
      && Text(width, h) == Text(width, g)
  {
    hide KindText, Texts, Text;
    ConcatTold(KindText(width, k) + Texts(width, vs), Text(width, h), KindText(width, l) + Texts(width, ws),
      Text(width, g));
    ConcatTold(KindText(width, k), Texts(width, vs), KindText(width, l), Texts(width, ws));
  }

  lemma KnownEven(cfg: Config, plan: seq<Choice>, s: Scene, name: string, args: Args, program: Option<Program>,
      inverse: Option<Program>, fuel: nat)
    requires s.contexts != [] && cfg.known(name)
    requires RendersEven(cfg, plan, s, KnownNamed(name), program, inverse, fuel)
    requires ArgsEven(cfg, plan, s, args, fuel)
    ensures var a := EvalKnown(Scout(cfg, plan), cfg, s, name, args, program, inverse, fuel);
      var b := EvalKnown(Scout(cfg, plan), cfg, Named(s), name, args, program, inverse, fuel);
      && EvenResults(|plan| + 1, a, b)
      && (ArgsTold(cfg, plan, s, args, fuel) ==> Told(|plan| + 1, a, b))
      && (RendersTold(cfg, plan, s, KnownNamed(name), program, inverse, fuel) ==> Told(|plan| + 1, a, b))
  {
    hide EvalParams, EvalHash, EvalAct, ParamsOf, Text, Texts, CallText, RendersTold, RendersEven, EvenAll;
    var i, width := Scout(cfg, plan), |plan| + 1;
    var vs, ws := EvalParams(i, cfg, s, args.params, fuel).value, EvalParams(i, cfg, Named(s), args.params, fuel).value;
    var h, g := EvalHash(i, cfg, s, args.hash, fuel).value, EvalHash(i, cfg, Named(s), args.hash, fuel).value;
    TextsEven(width, vs, ws);
    var c := CallFor(KnownHelper(name), vs, h, program, inverse, s);
    var d := CallFor(KnownHelper(name), ws, g, program, inverse, Named(s));
    CallTextEven(width, c.kind, d.kind, vs, ws, h, g, View(s), c, d);
    ActEven(cfg, plan, s, c, d, program, inverse, fuel);
  }

  predicate ArgsEven(cfg: Config, plan: seq<Choice>, s: Scene, args: Args, fuel: nat) {
    var i, n := Scout(cfg, plan), Named(s);
    var vs, ws := EvalParams(i, cfg, s, args.params, fuel), EvalParams(i, cfg, n, args.params, fuel);
    var h, g := EvalHash(i, cfg, s, args.hash, fuel), EvalHash(i, cfg, n, args.hash, fuel);
    && vs.Ok? && ws.Ok? && h.Ok? && g.Ok? && EvenAll(|plan| + 1, vs.value, ws.value)
    && |Text(|plan| + 1, h.value)| == |Text(|plan| + 1, g.value)|
  }

  predicate ArgsTold(cfg: Config, plan: seq<Choice>, s: Scene, args: Args, fuel: nat)
    requires ArgsEven(cfg, plan, s, args, fuel)
  {
    var i, n := Scout(cfg, plan), Named(s);
    || Texts(|plan| + 1, EvalParams(i, cfg, s, args.params, fuel).value)
      != Texts(|plan| + 1, EvalParams(i, cfg, n, args.params, fuel).value)
    || Text(|plan| + 1, EvalHash(i, cfg, s, args.hash, fuel).value)
      != Text(|plan| + 1, EvalHash(i, cfg, n, args.hash, fuel).value)
  }

  lemma UnknownEven(cfg: Config, plan: seq<Choice>, s: Scene, p: Path, args: Args, program: Option<Program>,
      inverse: Option<Program>, fuel: nat)
    requires s.contexts != []
    requires RendersEven(cfg, plan, s, HelperNamed(p.original), program, inverse, fuel)
    requires ArgsEven(cfg, plan, s, args, fuel)
    requires EvenResults(|plan| + 1, EvalPath(Scout(cfg, plan), s, p, true),
      EvalPath(Scout(cfg, plan), Named(s), p, true))
    ensures var i := Scout(cfg, plan);
      var a := EvalUnknown(i, cfg, s, p, args, program, inverse, fuel);
      var b := EvalUnknown(i, cfg, Named(s), p, args, program, inverse, fuel);
      && EvenResults(|plan| + 1, a, b)
      && (ArgsTold(cfg, plan, s, args, fuel) ==> Told(|plan| + 1, a, b))
      && (Told(|plan| + 1, EvalPath(i, s, p, true), EvalPath(i, Named(s), p, true)) ==> Told(|plan| + 1, a, b))
      && (RendersTold(cfg, plan, s, HelperNamed(p.original), program, inverse, fuel) ==> Told(|plan| + 1, a, b))
  {
    hide EvalParams, EvalHash, EvalAct, EvalPath, ParamsOf, Text, Texts, CallText, RendersTold, RendersEven, EvenAll;
    var i, width := Scout(cfg, plan), |plan| + 1;
    var vs, ws := EvalParams(i, cfg, s, args.params, fuel).value, EvalParams(i, cfg, Named(s), args.params, fuel).value;
    var h, g := EvalHash(i, cfg, s, args.hash, fuel).value, EvalHash(i, cfg, Named(s), args.hash, fuel).value;
    var v, w := EvalPath(i, s, p, true).value, EvalPath(i, Named(s), p, true).value;
    TextsEven(width, vs, ws);
    var c := CallFor(HelperCall(p.original, SimpleId(p), v), vs, h, program, inverse, s);
    var d := CallFor(HelperCall(p.original, SimpleId(p), w), ws, g, program, inverse, Named(s));
    CallTextEven(width, c.kind, d.kind, vs, ws, h, g, View(s), c, d);
    ActEven(cfg, plan, s, c, d, program, inverse, fuel);
  }

  lemma AmbiguousEven(cfg: Config, plan: seq<Choice>, s: Scene, p: Path, text: string, program: Option<Program>,
      inverse: Option<Program>, fuel: nat)
    requires s.contexts != [] && p.parts != []
    requires RendersEven(cfg, plan, s, ValueNamed(p.parts[0]), program, inverse, fuel)
    requires EvenResults(|plan| + 1, EvalPath(Scout(cfg, plan), s, p, true),
      EvalPath(Scout(cfg, plan), Named(s), p, true))
    ensures var i := Scout(cfg, plan);
      var a := EvalAmbiguous(i, cfg, s, p, text, program, inverse, fuel);
      var b := EvalAmbiguous(i, cfg, Named(s), p, text, program, inverse, fuel);
      && EvenResults(|plan| + 1, a, b)
      && (Told(|plan| + 1, EvalPath(i, s, p, true), EvalPath(i, Named(s), p, true)) ==> Told(|plan| + 1, a, b))
      && (RendersTold(cfg, plan, s, ValueNamed(p.parts[0]), program, inverse, fuel) ==> Told(|plan| + 1, a, b))
  {
    hide EvalAct, EvalPath, ParamsOf, Text, Texts, CallText, RendersTold, RendersEven;
    var i, width := Scout(cfg, plan), |plan| + 1;
    var v, w := EvalPath(i, s, p, true).value, EvalPath(i, Named(s), p, true).value;
    var isBlock, t := program.Some? || inverse.Some?, if cfg.mustacheLambdas then Some(text) else None;
    var c := CallFor(AmbiguousCall(p.parts[0], v, isBlock, t), [], VHash([]), program, inverse, s);
    var d := CallFor(AmbiguousCall(p.parts[0], w, isBlock, t), [], VHash([]), program, inverse, Named(s));
    CallTextEven(width, c.kind, d.kind, [], [], VHash([]), VHash([]), View(s), c, d);
    ActEven(cfg, plan, s, c, d, program, inverse, fuel);
  }

  // ---- statements

  predicate ToldTexts(a: Result<string>, b: Result<string>) {
    a.Ok? && b.Ok? && a.value != b.value
  }

  /** The callees the programs of a block may be handed to. */
  predicate MayServe(cfg: Config, scope: Scope, call: CallExpr, callee: Callee) {
    FirstCallee(cfg, scope, call, false) == Some(callee)
      || (callee == Missing && !Classify(cfg, scope, call, false).Helper?)
  }

  lemma MissingEven(cfg: Config, plan: seq<Choice>, s: Scene, name: Option<string>, v: Value, w: Value, b: Stmt,
      fuel: nat)
    requires b.Block? && s.contexts != [] && Even(|plan| + 1, v, w)
    requires RendersEven(cfg, plan, s, Missing, b.program, b.inverse, fuel)
    ensures var i := Scout(cfg, plan);
      var r, t := EvalMissing(i, cfg, s, name, v, b, fuel), EvalMissing(i, cfg, Named(s), name, w, b, fuel);
      && EvenResults(|plan| + 1, r, t)
      && (Text(|plan| + 1, v) != Text(|plan| + 1, w) ==> Told(|plan| + 1, r, t))
      && (RendersTold(cfg, plan, s, Missing, b.program, b.inverse, fuel) ==> Told(|plan| + 1, r, t))
  {
    hide EvalAct, ParamsOf, Text, CallText, RendersTold, RendersEven;
    var width := |plan| + 1;
    var c := CallFor(BlockHelperMissing(name), [v], VHash([]), b.program, b.inverse, s);
    var d := CallFor(BlockHelperMissing(name), [w], VHash([]), b.program, b.inverse, Named(s));
    OneText(width, v);
    OneText(width, w);
    CallTextEven(width, c.kind, d.kind, [v], [w], VHash([]), VHash([]), View(s), c, d);
    ActEven(cfg, plan, s, c, d, b.program, b.inverse, fuel);
  }

  lemma OneText(width: nat, v: Value)
    ensures Texts(width, [v]) == Text(width, v)
  {
    hide Text;
    assert [v][1..] == [];
    assert Texts(width, []) == "";
    assert Text(width, v) + "" == Text(width, v);
  }

  lemma BlockTailEven(cfg: Config, plan: seq<Choice>, s: Scene, b: Stmt, v: Value, w: Value, fuel: nat)
    requires b.Block? && s.naming.BySlot? && Tracked(|plan| + 1, s) && Even(|plan| + 1, v, w)
    requires RendersEven(cfg, plan, s, Missing, b.program, b.inverse, fuel)
    ensures var i := Scout(cfg, plan);
      var r, t := EvalBlockTail(i, cfg, s, b, v, fuel), EvalBlockTail(i, cfg, Named(s), b, w, fuel);
      && EvenTexts(r, t)
      && (Text(|plan| + 1, v) != Text(|plan| + 1, w) ==> ToldTexts(r, t))
      && (RendersTold(cfg, plan, s, Missing, b.program, b.inverse, fuel) ==>
        Classify(cfg, ScopeOf(s.frames), b.call, false).Helper? || ToldTexts(r, t))
  {
    hide EvalMissing, EvalBlockTail, EvalPath, Classify, HeadPath, ScopeOf, Tracked, Text, RendersTold, RendersEven,
      Scout;
    HasContext(|plan| + 1, s);
    var kind := Classify(cfg, ScopeOf(s.frames), b.call, false);
    if kind.Ambiguous? { PathEven(cfg, plan, s, HeadPath(b.call.head), true); }
    TailIs(cfg, plan, s, b, v, fuel);
    TailIs(cfg, plan, Named(s), b, w, fuel);
    if !kind.Helper? { MissingEven(cfg, plan, s, MissingName(kind, b), v, w, b, fuel); }
  }

  function MissingName(kind: Class, b: Stmt): Option<string>
    requires b.Block?
  {
    if kind.Simple? then Some(HeadPath(b.call.head).original) else None
  }

  /** What is done with the value of a block's call. */
  lemma TailIs(cfg: Config, plan: seq<Choice>, s: Scene, b: Stmt, v: Value, fuel: nat)
    requires b.Block?
    requires Classify(cfg, ScopeOf(s.frames), b.call, false).Ambiguous? ==>
      EvalPath(Scout(cfg, plan), s, HeadPath(b.call.head), true).Ok?
    ensures var kind := Classify(cfg, ScopeOf(s.frames), b.call, false);
      var r := EvalMissing(Scout(cfg, plan), cfg, s, MissingName(kind, b), v, b, fuel);
      EvalBlockTail(Scout(cfg, plan), cfg, s, b, v, fuel) ==
        if kind.Helper? then Ok(Text(|plan| + 1, v))
        else if r.Ok? then Ok(Text(|plan| + 1, r.value))
        else r.PropagateFailure()
  {
    hide EvalMissing, EvalPath, Classify, HeadPath, ScopeOf, Text, Scout, HelperNote;
    ScoutShows(cfg, plan);
    if Classify(cfg, ScopeOf(s.frames), b.call, false).Ambiguous? {
      AmbiguousIsName(cfg, ScopeOf(s.frames), b.call, false);
      assert !cfg.known(HeadPath(b.call.head).parts[0]);
    }
  }

  /** What the interpretation does to values that are shown, and that no value is a helper. */
  lemma ScoutShows(cfg: Config, plan: seq<Choice>)
    ensures forall v: Value, escape :: Scout(cfg, plan).show(v, escape) == Text(|plan| + 1, v)
    ensures forall v: Value :: !Scout(cfg, plan).callable(v)
    ensures forall name, looked ::
      HelperNote(Scout(cfg, plan), cfg, name, looked) == if cfg.known(name) then Some(name) else None
  {
  }

  lemma BlockEven(cfg: Config, plan: seq<Choice>, s: Scene, b: Stmt, fuel: nat)
    requires b.Block? && !b.decorator
    requires s.naming.BySlot? && Tracked(|plan| + 1, s) && Enough(plan, s, fuel) && TidyArgs(b.call.args)
    requires forall callee: Callee :: RendersEven(cfg, plan, s, callee, b.program, b.inverse, fuel)
    ensures var i := Scout(cfg, plan);
      var r, t := EvalBlock(i, cfg, s, b, fuel), EvalBlock(i, cfg, Named(s), b, fuel);
      && EvenTexts(r, t)
      && (!CallSound(cfg, ScopeOf(s.frames), GivenOf(s.frames), b.call, false) ==> ToldTexts(r, t))
      && forall callee ::
        MayServe(cfg, ScopeOf(s.frames), b.call, callee) ==>
        RendersTold(cfg, plan, s, callee, b.program, b.inverse, fuel) ==> ToldTexts(r, t)
  {
    hide EvalCall, EvalBlockTail, CallSound, Classify, ScopeOf, GivenOf, Tracked, Text, RendersTold, RendersEven,
      Enough, TidyArgs, Scout;
    var i := Scout(cfg, plan);
    CallEven(cfg, plan, s, b.call, false, b.program, b.inverse, BlockText(b), fuel);
    var v := EvalCall(i, cfg, s, b.call, false, b.program, b.inverse, BlockText(b), fuel).value;
    var w := EvalCall(i, cfg, Named(s), b.call, false, b.program, b.inverse, BlockText(b), fuel).value;
    BlockTailEven(cfg, plan, s, b, v, w, fuel);
  }

  lemma PartialContextEven(cfg: Config, plan: seq<Choice>, s: Scene, params: seq<Expr>, fuel: nat)
    requires s.naming.BySlot? && Tracked(|plan| + 1, s) && Enough(plan, s, fuel) && TidyParams(params) && |params| <= 1
    ensures var i := Scout(cfg, plan);
      var a, b := EvalPartialContext(i, cfg, s, params, fuel), EvalPartialContext(i, cfg, Named(s), params, fuel);
      && EvenResults(|plan| + 1, a, b)
      && (!ParamsSound(cfg, ScopeOf(s.frames), GivenOf(s.frames), params) ==> Told(|plan| + 1, a, b))
  {
    hide EvalExpr, ExprSound, ScopeOf, GivenOf, ParamsOf, Scout, Enough, Text;
    if params != [] {
      ExprEven(cfg, plan, s, params[0], fuel);
      assert params[1..] == [];
      assert ParamsSound(cfg, ScopeOf(s.frames), GivenOf(s.frames), params[1..]);
    }
  }

  lemma PartialNameEven(cfg: Config, plan: seq<Choice>, s: Scene, name: PartialName, fuel: nat)
    requires s.naming.BySlot? && Tracked(|plan| + 1, s) && Enough(plan, s, fuel)
    requires name.Dynamic? ==> TidyArgs(name.call.args)
    ensures var i := Scout(cfg, plan);
      var a, b := EvalPartialName(i, cfg, s, name, fuel), EvalPartialName(i, cfg, Named(s), name, fuel);
      && a.Ok? && b.Ok? && (a.value.Some? <==> name.Dynamic?) && (b.value.Some? <==> name.Dynamic?)
      && (name.Dynamic? ==> Even(|plan| + 1, a.value.value, b.value.value))
      && (name.Dynamic? && !CallSound(cfg, ScopeOf(s.frames), GivenOf(s.frames), name.call, true) ==>
        Text(|plan| + 1, a.value.value) != Text(|plan| + 1, b.value.value))
  {
    hide EvalCall, CallSound, ScopeOf, GivenOf, Scout, Text, Tracked, RendersEven, TidyArgs;
    if name.Dynamic? {
      forall callee: Callee ensures RendersEven(cfg, plan, s, callee, None, None, fuel) {
        NothingRendered(cfg, plan, s, callee, fuel);
      }
      CallEven(cfg, plan, s, name.call, true, None, None, "", fuel);
    }
  }

  lemma PartialCallEven(cfg: Config, plan: seq<Choice>, s: Scene, b: Stmt, n: Option<Value>, m: Option<Value>, v: Value,
      w: Value, h: Value, g: Value, fuel: nat)
    requires b.Partial? && s.contexts != [] && Even(|plan| + 1, v, w)
    requires (n.Some? <==> m.Some?) && (n.Some? ==> Even(|plan| + 1, n.value, m.value))
    requires |Text(|plan| + 1, h)| == |Text(|plan| + 1, g)|
    requires RendersEven(cfg, plan, s, PartialTo(PartialOperand(cfg, b.name)), b.program, None, fuel)
    ensures var i := Scout(cfg, plan);
      var r, t := EvalPartialCall(i, cfg, s, b, n, v, h, fuel), EvalPartialCall(i, cfg, Named(s), b, m, w, g, fuel);
      && EvenTexts(r, t)
      && ((n.Some? && Text(|plan| + 1, n.value) != Text(|plan| + 1, m.value))
          || Text(|plan| + 1, v) != Text(|plan| + 1, w) || Text(|plan| + 1, h) != Text(|plan| + 1, g) ==>
        ToldTexts(r, t))
      && (RendersTold(cfg, plan, s, PartialTo(PartialOperand(cfg, b.name)), b.program, None, fuel) ==> ToldTexts(r, t))
  {
    hide EvalAct, ParamsOf, Text, CallText, RendersTold, RendersEven, PartialOperand;
    var width, i := |plan| + 1, Scout(cfg, plan);
    var c := CallFor(PartialCall(n, PartialOperand(cfg, b.name)), [v], h, b.program, None, s);
    var d := CallFor(PartialCall(m, PartialOperand(cfg, b.name)), [w], g, b.program, None, Named(s));
    OneText(width, v);
    OneText(width, w);
    CallTextEven(width, c.kind, d.kind, [v], [w], h, g, View(s), c, d);
    ActEven(cfg, plan, s, c, d, b.program, None, fuel);
    var r := EvalAct(i, cfg, s, c, b.program, None, [], fuel);
    var t := EvalAct(i, cfg, Named(s), d, b.program, None, [], fuel);
    ConcatTold(b.indent, Text(width, r.value), b.indent, Text(width, t.value));
  }

  lemma PartialEven(cfg: Config, plan: seq<Choice>, s: Scene, b: Stmt, fuel: nat)
    requires b.Partial? && s.naming.BySlot? && Tracked(|plan| + 1, s) && Enough(plan, s, fuel) && TidyStmt(b)
    requires RendersEven(cfg, plan, s, PartialTo(PartialOperand(cfg, b.name)), b.program, None, fuel)
    ensures var i := Scout(cfg, plan);
      var r, t := EvalPartial(i, cfg, s, b, fuel), EvalPartial(i, cfg, Named(s), b, fuel);
      && EvenTexts(r, t)
      && (!StmtSound(cfg, ScopeOf(s.frames), GivenOf(s.frames), b) ==> ToldTexts(r, t))
      && (RendersTold(cfg, plan, s, PartialTo(PartialOperand(cfg, b.name)), b.program, None, fuel) ==> ToldTexts(r, t))
  {
    hide EvalPartialName, EvalPartialContext, EvalHash, EvalPartialCall, CallSound, ParamsSound, HashSound, ScopeOf,
      GivenOf, Text, RendersTold, RendersEven, PartialOperand, Tracked, Scout;
    var i := Scout(cfg, plan);
    HasContext(|plan| + 1, s);
    PartialNameEven(cfg, plan, s, b.name, fuel);
    PartialContextEven(cfg, plan, s, b.args.params, fuel);
    HashEven(cfg, plan, s, b.args.hash, fuel);
    ArgsSoundParts(cfg, ScopeOf(s.frames), GivenOf(s.frames), b.args);
    PartialCallEven(cfg, plan, s, b, EvalPartialName(i, cfg, s, b.name, fuel).value,
      EvalPartialName(i, cfg, Named(s), b.name, fuel).value,
      EvalPartialContext(i, cfg, s, b.args.params, fuel).value,
      EvalPartialContext(i, cfg, Named(s), b.args.params, fuel).value,
      EvalHash(i, cfg, s, b.args.hash, fuel).value, EvalHash(i, cfg, Named(s), b.args.hash, fuel).value, fuel);
  }

  /** The callees the programs of a statement may be handed to. */
  predicate Serves(cfg: Config, scope: Scope, s: Stmt, callee: Callee) {
    match s
    case Block(call, _, _, _, _) => MayServe(cfg, scope, call, callee)
    case Partial(name, _, _, _) => callee == PartialTo(PartialOperand(cfg, name))
    case _ => false
  }

  /** Whatever its callees render is even. */
  ghost predicate ProgramsEven(cfg: Config, plan: seq<Choice>, s: Scene, stmt: Stmt, fuel: nat) {
    forall callee: Callee :: RendersEven(cfg, plan, s, callee, ProgramOf(stmt), InverseOf(stmt), fuel)
  }

  /** A statement writes texts of one length; different ones if a lookup is not sound, or a callee renders them. */
  lemma StmtEven(cfg: Config, plan: seq<Choice>, s: Scene, stmt: Stmt, fuel: nat)
    requires s.naming.BySlot? && Tracked(|plan| + 1, s) && Enough(plan, s, fuel) && TidyStmt(stmt)
    requires ProgramsEven(cfg, plan, s, stmt, fuel)
    ensures var i := Scout(cfg, plan);
      var r, t := EvalStmt(i, cfg, s, stmt, fuel), EvalStmt(i, cfg, Named(s), stmt, fuel);
      && EvenTexts(r, t)
      && (!StmtSound(cfg, ScopeOf(s.frames), GivenOf(s.frames), stmt) ==> ToldTexts(r, t))
      && forall callee ::
        Serves(cfg, ScopeOf(s.frames), stmt, callee) ==>
        RendersTold(cfg, plan, s, callee, ProgramOf(stmt), InverseOf(stmt), fuel) ==> ToldTexts(r, t)
  {
    hide EvalCall, EvalBlock, EvalPartial, CallSound, ArgsSound, ScopeOf, GivenOf, Text, RendersTold, RendersEven,
      MayServe, PartialOperand, Tracked, TidyArgs, ProgramsEven;
    match stmt
    case Content(_) =>
    case Comment =>
    case Mustache(call, _, _) =>
      RenderedEven(cfg, plan, s, stmt, None, None, fuel);
      CallEven(cfg, plan, s, call, false, None, None, "", fuel);
    case Block(_, _, _, _, _) =>
      RenderedEven(cfg, plan, s, stmt, stmt.program, stmt.inverse, fuel);
      BlockEven(cfg, plan, s, stmt, fuel);
    case RawBlock(_, _) =>
      RenderedEven(cfg, plan, s, stmt, AsBlock(stmt).program, None, fuel);
      BlockEven(cfg, plan, s, AsBlock(stmt), fuel);
    case Partial(_, _, _, _) =>
      RenderedEven(cfg, plan, s, stmt, stmt.program, None, fuel);
      PartialEven(cfg, plan, s, stmt, fuel);
  }

  lemma RenderedEven(cfg: Config, plan: seq<Choice>, s: Scene, stmt: Stmt, program: Option<Program>,
      inverse: Option<Program>, fuel: nat)
    requires ProgramsEven(cfg, plan, s, stmt, fuel) && program == ProgramOf(stmt) && inverse == InverseOf(stmt)
    ensures forall callee: Callee :: RendersEven(cfg, plan, s, callee, program, inverse, fuel)
  {
    hide RendersEven;
  }
}

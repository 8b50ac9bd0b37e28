/** What blocks of the built-in helpers write, from the texts of their programs. */
module BuiltinRuns {
  import opened Options
  import opened Ast
  import opened CodeGen
  import opened Vm
  import opened Eval
  import opened Meaning
  import opened KnownBlocks
  import opened Builtins
  import opened Dispatch
  import opened Contexts

  /** The text of one of the programs of a block, entered as asked; without a program, nothing. */
  function TextOf(i: Interp, cfg: Config, s: Scene, p: Option<Program>, a: Action, fuel: nat): Result<string>
    requires a.Render?
  {
    if p.None? then Ok("") else EvalProgram(i, cfg, p.value, EnterScene(i, s, a), a.params, fuel)
  }

  /** The context at hand. */
  function Here(s: Scene): Value {
    if s.contexts == [] then VNull else s.contexts[|s.contexts| - 1]
  }

  /** A callee that renders one program and returns its text. */
  lemma WritesOnce(i: Interp, cfg: Config, s: Scene, c: Call, program: Option<Program>, inverse: Option<Program>,
      a: Action, fuel: nat)
    requires fuel > 0 && a.Render? && i.act(c, []) == a
    requires forall t :: i.act(c, [t]) == Return(VStr(t))
    ensures var t := TextOf(i, cfg, s, if a.inverse then inverse else program, a, fuel - 1);
      EvalAct(i, cfg, s, c, program, inverse, [], fuel) == if t.Ok? then Ok(VStr(t.value)) else t.PropagateFailure()
  {
    hide EvalProgram;
    var t := TextOf(i, cfg, s, if a.inverse then inverse else program, a, fuel - 1);
    if t.Ok? { assert [] + [t.value] == [t.value]; }
  }

  predicate Nothing(rt: Runtime, v: Value) {
    v in {VNull, VBool(false), VInt(0), VStr(""), VStr("0"), VArray([]), VHash([])}
      || (v.VOther? && rt.opaqueEmpty(v.id))
  }

  predicate CountsZero(hash: Value) {
    hash.VHash? && exists n :: 0 <= n < |hash.entries| && hash.entries[n].key.val == "includeZero"
  }

  /** if renders its program in the context at hand, over nothing its inverse; zero may be asked to be something. */
  lemma IfWrites(i: Interp, rt: Runtime, cfg: Config, s: Scene, c: Call, program: Option<Program>,
      inverse: Option<Program>, fuel: nat)
    requires HasBuiltins(i, rt) && c.kind == KnownHelper("if") && |c.args| == 1 && c.env == View(s) && fuel > 0
    ensures var v := rt.force(c.args[0]);
      var holds := !Nothing(rt, v) || (v == VInt(0) && CountsZero(c.hash));
      var t := TextOf(i, cfg, s, if holds then program else inverse, Render(!holds, Here(s), None, None, None),
        fuel - 1);
      EvalAct(i, cfg, s, c, program, inverse, [], fuel) == if t.Ok? then Ok(VStr(t.value)) else t.PropagateFailure()
  {
    hide EvalProgram, EvalAct;
    var a := i.act(c, []);
    assert a == BuiltinAct(rt, c, []).value;
    forall t ensures i.act(c, [t]) == Return(VStr(t)) {
      assert i.act(c, [t]) == BuiltinAct(rt, c, [t]).value;
    }
    WritesOnce(i, cfg, s, c, program, inverse, a, fuel);
  }

  /** unless renders its program over nothing, and over anything else its inverse. */
  lemma UnlessWrites(i: Interp, rt: Runtime, cfg: Config, s: Scene, c: Call, program: Option<Program>,
      inverse: Option<Program>, fuel: nat)
    requires HasBuiltins(i, rt) && c.kind == KnownHelper("unless") && |c.args| == 1 && c.env == View(s) && fuel > 0
    ensures var holds := Nothing(rt, c.args[0]);
      var t := TextOf(i, cfg, s, if holds then program else inverse, Render(!holds, Here(s), None, None, None),
        fuel - 1);
      EvalAct(i, cfg, s, c, program, inverse, [], fuel) == if t.Ok? then Ok(VStr(t.value)) else t.PropagateFailure()
  {
    hide EvalProgram, EvalAct;
    var a := i.act(c, []);
    assert a == BuiltinAct(rt, c, []).value;
    forall t ensures i.act(c, [t]) == Return(VStr(t)) {
      assert i.act(c, [t]) == BuiltinAct(rt, c, [t]).value;
    }
    WritesOnce(i, cfg, s, c, program, inverse, a, fuel);
  }

  /** with renders its program in its argument, which is also the block's parameter; over null, its inverse. */
  lemma WithWrites(i: Interp, rt: Runtime, cfg: Config, s: Scene, c: Call, program: Option<Program>,
      inverse: Option<Program>, fuel: nat)
    requires HasBuiltins(i, rt) && c.kind == KnownHelper("with") && |c.args| == 1 && c.env == View(s) && fuel > 0
    ensures var v := rt.force(c.args[0]);
      var t := if v == VNull then TextOf(i, cfg, s, inverse, Render(true, VNull, None, None, None), fuel - 1)
        else TextOf(i, cfg, s, program, Render(false, v, Some(s.data), Some(VArray([v])), None), fuel - 1);
      EvalAct(i, cfg, s, c, program, inverse, [], fuel) == if t.Ok? then Ok(VStr(t.value)) else t.PropagateFailure()
  {
    hide EvalProgram, EvalAct;
    var a := i.act(c, []);
    assert a == BuiltinAct(rt, c, []).value;
    forall t ensures i.act(c, [t]) == Return(VStr(t)) {
      assert i.act(c, [t]) == BuiltinAct(rt, c, [t]).value;
    }
    WritesOnce(i, cfg, s, c, program, inverse, a, fuel);
  }

  /**
   blockHelperMissing, over true, renders the program in the context at hand; over nothing but zero, the inverse there;
   over any other value but an array, the program in that value, which is no parameter.
   */
  lemma MissingWrites(i: Interp, rt: Runtime, cfg: Config, s: Scene, c: Call, program: Option<Program>,
      inverse: Option<Program>, fuel: nat)
    requires HasBuiltins(i, rt) && c.kind.BlockHelperMissing? && |c.args| == 1 && c.env == View(s) && fuel > 0
    requires c.args[0].VArray? ==> c.args[0] == VArray([])
    ensures var v := c.args[0];
      var t :=
        if v == VBool(true) then TextOf(i, cfg, s, program, Render(false, Here(s), None, None, None), fuel - 1)
        else if Nothing(rt, v) && v != VInt(0) then
          TextOf(i, cfg, s, inverse, Render(true, Here(s), None, None, None), fuel - 1)
        else TextOf(i, cfg, s, program, Render(false, v, None, None, None), fuel - 1);
      EvalAct(i, cfg, s, c, program, inverse, [], fuel) == if t.Ok? then Ok(VStr(t.value)) else t.PropagateFailure()
  {
    hide EvalProgram, EvalAct;
    var a := i.act(c, []);
    assert a == BuiltinAct(rt, c, []).value;
    forall t ensures i.act(c, [t]) == Return(VStr(t)) {
      assert i.act(c, [t]) == BuiltinAct(rt, c, [t]).value;
    }
    WritesOnce(i, cfg, s, c, program, inverse, a, fuel);
  }

  // ---- each

  /** Item number n, and its number or its key. */
  function Walked(v: Value, n: nat): (Value, Value)
    requires (v.VArray? && n < |v.items|) || (v.VHash? && n < |v.entries|)
  {
    if v.VArray? then (v.items[n], VInt(n)) else (v.entries[n].value, VStr(v.entries[n].key.val))
  }

  function Size(v: Value): nat {
    if v.VArray? then |v.items| else if v.VHash? then |v.entries| else 0
  }

  /** How the program of each is entered for item n: in the item, with the item and its number or key as parameters. */
  function Turn(rt: Runtime, v: Value, data: Value, n: nat): (a: Action)
    requires n < Size(v)
    ensures a.Render? && !a.inverse
  {
    var (item, key) := Walked(v, n);
    Render(false, item, Some(rt.eachData(data, n, Size(v), key)), Some(VArray([item, key])), None)
  }

  /** The texts of the items one after the other. */
  function Concat(texts: seq<string>): string {
    if texts == [] then "" else Concat(texts[..|texts| - 1]) + texts[|texts| - 1]
  }

  lemma {:induction false} JoinedIs(texts: seq<string>)
    ensures Joined(texts) == Concat(texts)
  {
    if texts != [] {
      var last := |texts| - 1;
      JoinedIs(texts[..last]);
      JoinedOneMore(texts[..last], texts[last]);
      assert texts == texts[..last] + [texts[last]];
    }
  }

  lemma {:induction false} JoinedOneMore(texts: seq<string>, t: string)
    ensures Joined(texts + [t]) == Joined(texts) + t
  {
    if texts == [] {
      assert [t][1..] == [] && t + "" == "" + t;
    } else {
      JoinedOneMore(texts[1..], t);
      assert (texts + [t])[1..] == texts[1..] + [t];
    }
  }

  /** each writes the texts of its items in order, or, without items, what its inverse writes in the context at hand. */
  lemma {:induction false} EachWrites(i: Interp, rt: Runtime, cfg: Config, s: Scene, c: Call, program: Option<Program>,
      inverse: Option<Program>, texts: seq<string>, fuel: nat)
    requires HasBuiltins(i, rt) && c.kind == KnownHelper("each") && |c.args| > 0 && c.env == View(s)
    requires var v := rt.force(c.args[0]);
      && |texts| == Size(v) && fuel > |texts|
      && forall n :: 0 <= n < |texts| ==>
        TextOf(i, cfg, s, program, Turn(rt, v, s.data, n), fuel - 1 - n) == Ok(texts[n])
    ensures texts != [] ==> EvalAct(i, cfg, s, c, program, inverse, [], fuel) == Ok(VStr(Concat(texts)))
    ensures texts == [] ==>
      var t := TextOf(i, cfg, s, inverse, Render(true, Here(s), None, None, None), fuel - 1);
      EvalAct(i, cfg, s, c, program, inverse, [], fuel) == if t.Ok? then Ok(VStr(t.value)) else t.PropagateFailure()
  {
    hide EvalProgram, EvalAct;
    if texts == [] {
      assert i.act(c, []) == BuiltinAct(rt, c, []).value;
      forall t ensures i.act(c, [t]) == Return(VStr(t)) {
        assert i.act(c, [t]) == BuiltinAct(rt, c, [t]).value;
      }
      WritesOnce(i, cfg, s, c, program, inverse, i.act(c, []), fuel);
    } else {
      assert texts[..0] == [];
      EachGoesOn(i, rt, cfg, s, c, program, inverse, texts, 0, fuel);
      JoinedIs(texts);
    }
  }

  lemma {:induction false} EachGoesOn(i: Interp, rt: Runtime, cfg: Config, s: Scene, c: Call, program: Option<Program>,
      inverse: Option<Program>, texts: seq<string>, n: nat, fuel: nat)
    requires HasBuiltins(i, rt) && c.kind == KnownHelper("each") && |c.args| > 0 && c.env == View(s)
    requires var v := rt.force(c.args[0]);
      && n <= |texts| == Size(v) && texts != [] && fuel >= |texts| - n
      && forall k :: n <= k < |texts| ==>
        TextOf(i, cfg, s, program, Turn(rt, v, s.data, k), fuel - 1 - (k - n)) == Ok(texts[k])
    ensures EvalAct(i, cfg, s, c, program, inverse, texts[..n], fuel) == Ok(VStr(Joined(texts)))
    decreases |texts| - n
  {
    hide EvalAct, TextOf, Turn, HasBuiltins, Joined;
    var v := rt.force(c.args[0]);
    EachTurns(i, rt, s, c, texts, n);
    if n < |texts| {
      GoesOn(i, cfg, s, c, program, inverse, texts[..n], Turn(rt, v, s.data, n), texts[n], fuel);
      assert texts[..n] + [texts[n]] == texts[..n + 1];
      EachGoesOn(i, rt, cfg, s, c, program, inverse, texts, n + 1, fuel - 1);
    } else {
      assert texts[..n] == texts;
      Ends(i, cfg, s, c, program, inverse, texts, VStr(Joined(texts)), fuel);
    }
  }

  /** What each does when it has so many texts. */
  lemma EachTurns(i: Interp, rt: Runtime, s: Scene, c: Call, texts: seq<string>, n: nat)
    requires HasBuiltins(i, rt) && c.kind == KnownHelper("each") && |c.args| > 0 && c.env == View(s)
    requires n <= |texts| == Size(rt.force(c.args[0])) && texts != []
    ensures i.act(c, texts[..n]) ==
      if n < |texts| then Turn(rt, rt.force(c.args[0]), s.data, n) else Return(VStr(Joined(texts[..n])))
  {
    hide Joined, ParamsOf;
    assert i.act(c, texts[..n]) == BuiltinAct(rt, c, texts[..n]).value == EachAct(rt, c, texts[..n]);
  }

  lemma GoesOn(i: Interp, cfg: Config, s: Scene, c: Call, program: Option<Program>, inverse: Option<Program>,
      texts: seq<string>, a: Action, text: string, fuel: nat)
    requires a.Render? && !a.inverse && i.act(c, texts) == a && fuel > 0
    requires TextOf(i, cfg, s, program, a, fuel - 1) == Ok(text)
    ensures EvalAct(i, cfg, s, c, program, inverse, texts, fuel)
      == EvalAct(i, cfg, s, c, program, inverse, texts + [text], fuel - 1)
  {
    hide EvalProgram;
  }

  lemma Ends(i: Interp, cfg: Config, s: Scene, c: Call, program: Option<Program>, inverse: Option<Program>,
      texts: seq<string>, v: Value, fuel: nat)
    requires i.act(c, texts) == Return(v)
    ensures EvalAct(i, cfg, s, c, program, inverse, texts, fuel) == Ok(v)
  {
  }

  // ---- .. inside each

  function Times(n: nat, text: string): string {
    if n == 0 then "" else Times(n - 1, text) + text
  }

  lemma {:induction false} ConcatTimes(n: nat, text: string)
    ensures Concat(seq(n, _ => text)) == Times(n, text)
  {
    if n > 0 {
      ConcatTimes(n - 1, text);
      assert seq(n, _ => text)[..n - 1] == seq(n - 1, _ => text);
    }
  }

  /** {{#each list}}{{{../name}}}{{/each}} */
  function EachParent(list: string, name: string): Program {
    Program([BlockOf("each", [PathExpr(NamePath(list))], ParentBody(name))], None, None)
  }

  /** The name is the same to everyone who asks for it in this context. */
  ghost predicate Means(i: Interp, context: Value, name: string, v: Value) {
    forall env: Env :: i.onContext(context, env, [name], true, true) == Ok(v)
  }

  lemma EachIsWord()
    ensures !ScopedText("each")
  {
    forall n: nat ensures !ThisAt("each", n) {
      assert n == 0 ==> "each"[n..n + 4][0] == 'e' && "this"[0] == 't';
    }
  }

  lemma ListIsFound(i: Interp, cfg: Config, list: string, v: Value, context: Value, data: Value, fuel: nat)
    requires !ScopedText(list) && i.onContext(context, Env([context], data, [], []), [list], false, false) == Ok(v)
    ensures ParamsCompile(cfg, [Names(None, None)], [PathExpr(NamePath(list))])
    ensures EvalParams(i, cfg, Outermost(context, data), [PathExpr(NamePath(list))], fuel) == Ok([v])
  {
    hide ScopedText, ScopedId;
    var s, p, params := Outermost(context, data), NamePath(list), [PathExpr(NamePath(list))];
    NameScene(i, cfg, list, context, data);
    NothingDeclared(list);
    ScopedExactly(p);
    assert EvalPath(i, s, p, false) == Ok(v);
    assert params[1..] == [] && ParamsCompile(cfg, [Names(None, None)], params[1..]);
    assert EvalParams(i, cfg, s, params[1..], fuel) == Ok([]) && [v] + [] == [v];
  }

  lemma ItemReadsParent(i: Interp, rt: Runtime, cfg: Config, name: string, vs: seq<Value>, n: nat, v: Value,
      context: Value, data: Value, fuel: nat)
    requires n < |vs| && !i.same(context, vs[n]) && Means(i, context, name, v) && !i.callable(v)
    ensures TextOf(i, cfg, Outermost(context, data), Some(ParentBody(name)), Turn(rt, VArray(vs), data, n), fuel)
      == Ok(i.show(v, false))
  {
    hide EvalStmt, ParamsOf, ScopeOf;
    var s, a := Outermost(context, data), Turn(rt, VArray(vs), data, n);
    var scene := EnterScene(i, s, a).(frames := s.frames + [Frame(Names(None, None), a.params)]);
    OneRendered(i, cfg, ShowAbove(name, 1), s, Names(None, None), a, fuel);
    assert scene.contexts == [context] + [vs[n]] == [context, vs[n]];
    AboveShows(i, cfg, scene, name, 1, fuel);
    assert InContext(i, scene, context, name) == Ok(v);
  }

  /**
   Inside each, ../name is looked up in the context around the block, for every item: as many items, so often its text.
   */
  lemma EachReadsParent(i: Interp, rt: Runtime, cfg: Config, list: string, name: string, vs: seq<Value>, v: Value,
      context: Value, data: Value, fuel: nat)
    requires HasBuiltins(i, rt) && cfg.known("each") && i.hasHelper("each") && fuel > |vs| && !ScopedText(list)
    requires i.onContext(context, Env([context], data, [], []), [list], false, false) == Ok(VArray(vs))
    requires rt.force(VArray(vs)) == VArray(vs) && forall n :: 0 <= n < |vs| ==> !i.same(context, vs[n])
    requires Means(i, context, name, v) && !i.callable(v)
    ensures Output(i, cfg, EachParent(list, name), context, data, fuel)
      == Ok(i.show(VStr(Times(|vs|, i.show(v, false))), false))
  {
    hide Output, ScopedText, EvalAct, EvalProgram, HasBuiltins, Turn, ProgramCompiles, StraightProgram, ParamsCompile,
      EvalParams, Concat, ParamsOf, ScopeOf, EnterScene;
    var s, body, text := Outermost(context, data), ParentBody(name), i.show(v, false);
    var params, args := [PathExpr(NamePath(list))], [VArray(vs)];
    var c := BlockCall("each", args, context, data);
    EachIsWord();
    ListIsFound(i, cfg, list, VArray(vs), context, data, fuel);
    ParentBodyCompiles(cfg, [Names(None, None)], name);
    KnownBlockOutput(i, cfg, "each", params, args, body, context, data, fuel);
    assert BlockOf("each", params, body).program == Some(body);
    var texts := seq(|vs|, _ => text);
    forall n | 0 <= n < |vs|
      ensures TextOf(i, cfg, s, Some(body), Turn(rt, VArray(vs), data, n), fuel - 1 - n) == Ok(texts[n])
    {
      ItemReadsParent(i, rt, cfg, name, vs, n, v, context, data, fuel - 1 - n);
    }
    NameScene(i, cfg, list, context, data);
    EachWrites(i, rt, cfg, s, c, Some(body), None, texts, fuel);
    ConcatTimes(|vs|, text);
  }
}

/** What block parameters, partials and raw blocks write, in the terms of their parts. */
module StmtRuns {
  import opened Options
  import opened Ast
  import opened CodeGen
  import opened Vm
  import opened Eval
  import opened Meaning
  import opened KnownBlocks
  import opened Dispatch
  import opened Contexts

  // ---- block parameters

  /** In a program with two parameters that was given values for them. */
  predicate Given(s: Scene, first: string, second: string, x: Value, y: Value) {
    s.frames != [] && s.frames[|s.frames| - 1] == Frame(Names(Some(first), Some(second)), Some(VArray([x, y])))
  }

  lemma ParamsAreFound(s: Scene, first: string, second: string, x: Value, y: Value)
    requires Given(s, first, second, x, y)
    ensures Found(s, first) == Some(Some(x)) && (first != second ==> Found(s, second) == Some(Some(y)))
    ensures Resolve(ScopeOf(s.frames), first).Some? && Resolve(ScopeOf(s.frames), second).Some?
  {
    var last := |s.frames| - 1;
    var scope := ScopeOf(s.frames);
    assert scope[|scope| - 1] == Names(Some(first), Some(second));
    assert ParamsOf(s.frames) == ParamsOf(s.frames[..last]) + [VArray([x, y])];
  }

  function ShowPath(p: Path): Stmt {
    Mustache(CallExpr(Name(p), Args([], NoHash)), true, false)
  }

  /** The parameters of the program at hand, by slot and by name alike: the first value, the second, and a member. */
  lemma ParamShows(i: Interp, cfg: Config, s: Scene, first: string, second: string, x: Value, y: Value, member: string,
      fuel: nat)
    requires Given(s, first, second, x, y) && first != second && !ScopedText(first) && !ScopedText(second)
    requires !i.callable(x) && !i.callable(y)
    ensures EvalStmt(i, cfg, s, ShowPath(NamePath(first)), fuel) == Ok(i.show(x, false))
    ensures EvalStmt(i, cfg, s, ShowPath(NamePath(second)), fuel) == Ok(i.show(y, false))
    ensures var p, m := Path([first, member], first + "." + member, 0, false), i.member(x, member);
      !ScopedText(p.original) ==>
        EvalPath(i, s, p, true) == Ok(if m.Some? then m.value else x)
  {
    hide Found, ScopedText, ScopedId, EvalStmt;
    ParamsAreFound(s, first, second, x, y);
    ScopedExactly(NamePath(first));
    ScopedExactly(NamePath(second));
    ShowMeans(i, cfg, s, first, fuel);
    ShowMeans(i, cfg, s, second, fuel);
    var p := Path([first, member], first + "." + member, 0, false);
    ScopedExactly(p);
    var names := p.parts[1..];
    assert names == [member] && names[1..] == [];
    if !ScopedText(p.original) {
      assert EvalPath(i, s, p, true) == Ok(Descend(i, x, names));
      var m := i.member(x, member);
      if m.Some? { assert Descend(i, m.value, names[1..]) == m.value; }
    }
  }

  // ---- partials

  /** {{> name}} */
  function PartialStmt(name: string, indent: string): Stmt {
    Partial(Static(Name(NamePath(name))), Args([], NoHash), None, indent)
  }

  /**
   A partial is called by its name, with the current context, or with nothing if contexts have to be explicit; what it
   returns is indented, or, if that is to be prevented, only its first line.
   */
  lemma PartialIsCalled(i: Interp, cfg: Config, name: string, indent: string, context: Value, data: Value, fuel: nat)
    ensures var run := Output(i, cfg, Program([PartialStmt(name, indent)], None, None), context, data, fuel);
      var given := if cfg.explicitPartialContext then VNull else context;
      var call := Call(PartialCall(None, Text(name)), [given], VHash([]), false, false, Env([context], data, [], []));
      match i.act(call, [])
      case Render(_, _, _, _, _) => true
      case Throw => run == Thrown
      case Return(v) =>
        run == Ok(if cfg.preventIndent then indent + i.indent(i.show(v, false), "")
          else i.indent(i.show(v, false), indent))
  {
    hide Output, EvalPartialCall;
    var s, b, scope := Outermost(context, data), PartialStmt(name, indent), [Names(None, None)];
    assert ParamsCompile(cfg, scope, []);
    assert StraightOption(cfg, b.program) && OptionalCompiles(cfg, scope, b.program);
    assert ArgsCompile(cfg, scope, b.args);
    assert StmtCompiles(cfg, scope, b) && StraightStmt(cfg, b);
    OutputOfOne(i, cfg, b, context, data, fuel);
    NameScene(i, cfg, name, context, data);
    var given := if cfg.explicitPartialContext then VNull else context;
    assert EvalPartialContext(i, cfg, s, [], fuel) == Ok(given);
    assert EvalHash(i, cfg, s, NoHash, fuel) == Ok(VHash([]));
    var c := CallFor(PartialCall(None, Text(name)), [given], VHash([]), None, None, s);
    assert EvalPartial(i, cfg, s, b, fuel) == EvalPartialCall(i, cfg, s, b, None, given, VHash([]), fuel);
    assert PartialOperand(cfg, b.name) == Text(name);
    assert c == Call(PartialCall(None, Text(name)), [given], VHash([]), false, false, Env([context], data, [], []));
    assert EvalStmt(i, cfg, s, b, fuel) == EvalPartial(i, cfg, s, b, fuel);
    PartialText(i, cfg, s, b, c, fuel);
  }

  lemma PartialText(i: Interp, cfg: Config, s: Scene, b: Stmt, c: Call, fuel: nat)
    requires b.Partial? && b.name.Static? && b.program.None? && c.kind == PartialCall(None, PartialOperand(cfg, b.name))
    requires |c.args| == 1 && c == CallFor(c.kind, c.args, c.hash, None, None, s)
    ensures var t := EvalPartialCall(i, cfg, s, b, None, c.args[0], c.hash, fuel);
      match i.act(c, [])
      case Render(_, _, _, _, _) => true
      case Throw => t == Thrown
      case Return(v) =>
        t == Ok(if cfg.preventIndent then b.indent + i.indent(i.show(v, false), "")
          else i.indent(i.show(v, false), b.indent))
  {
    hide ParamsOf;
    assert [c.args[0]] == c.args;
    var r := EvalAct(i, cfg, s, c, None, None, [], fuel);
    assert i.act(c, []).Return? ==> r == Ok(i.act(c, []).value);
  }

  // ---- raw blocks

  /** {{{{helper}}}} content {{{{/helper}}}}: the helper is given a program that writes the content as it is. */
  lemma RawIsWritten(i: Interp, cfg: Config, helper: string, content: string, context: Value, data: Value, a: Action,
      fuel: nat)
    requires cfg.known(helper) && i.hasHelper(helper) && !ScopedText(helper) && fuel > 0
    requires a.Render? && !a.inverse && i.act(BlockCall(helper, [], context, data), []) == a
    ensures Writes(Output(i, cfg, Program([RawBlock(NameCall(helper), content)], None, None), context, data, fuel), i,
      i.act(BlockCall(helper, [], context, data), [content]), false)
  {
    hide Output, ScopedText, ScopedId, Classify, EvalAct, EvalProgram;
    var s, r, scope := Outermost(context, data), RawBlock(NameCall(helper), content), [Names(None, None)];
    var b := AsBlock(r);
    var body := b.program.value;
    NameScene(i, cfg, helper, context, data);
    RawCompiles(cfg, scope, helper, content);
    OutputOfOne(i, cfg, r, context, data, fuel);
    var c := CallFor(KnownHelper(helper), [], VHash([]), b.program, b.inverse, s);
    assert c == BlockCall(helper, [], context, data);
    OneRendered(i, cfg, Content(content), s, Names(None, None), a, fuel - 1);
    RenderedOnce(i, cfg, s, c, a, body, content, fuel);
    var t := EvalAct(i, cfg, s, c, b.program, b.inverse, [], fuel);
    assert EvalParams(i, cfg, s, [], fuel) == Ok([]) && EvalHash(i, cfg, s, NoHash, fuel) == Ok(VHash([]));
    assert EvalKnown(i, cfg, s, helper, b.call.args, b.program, b.inverse, fuel) == t;
    assert EvalCall(i, cfg, s, b.call, false, b.program, b.inverse, BlockText(b), fuel) == t;
    if t.Ok? { assert EvalBlockTail(i, cfg, s, b, t.value, fuel) == Ok(i.show(t.value, false)); }
    assert EvalStmt(i, cfg, s, r, fuel) == EvalBlock(i, cfg, s, b, fuel);
  }

  lemma RawCompiles(cfg: Config, scope: Scope, helper: string, content: string)
    requires cfg.known(helper)
    ensures StmtCompiles(cfg, scope, RawBlock(NameCall(helper), content))
    ensures StraightStmt(cfg, RawBlock(NameCall(helper), content))
  {
    assert ParamsCompile(cfg, scope, []);
    assert CallCompiles(cfg, scope, NameCall(helper), false);
  }
}

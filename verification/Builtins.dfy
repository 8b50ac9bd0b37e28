/** The built-in block helpers (src/handlebars_helpers.c) as callees, and what they mean for block parameters. */
module Builtins {
  import opened Options
  import opened Ast
  import opened CodeGen
  import opened Vm
  import opened Meaning
  import opened Safety
  import opened Policies

  /**
   What the helpers leave to the rest of the system: the value a callable argument returns, whether an
   opaque value is empty, and the private data each hands down for item n of a number of items.
   */
  datatype Runtime = Runtime(force: Value -> Value, opaqueEmpty: nat -> bool,
      eachData: (Value, nat, nat, Value) -> Value)

  predicate IsEmpty(rt: Runtime, v: Value) {
    match v
    case VNull => true
    case VBool(b) => !b
    case VInt(n) => n == 0
    case VStr(s) => s == "" || s == "0"
    case VArray(items) => items == []
    case VHash(entries) => entries == []
    case VOther(id) => rt.opaqueEmpty(id)
  }

  /** A helper that has rendered returns the text. */
  function Finish(texts: seq<string>, first: Action): Action {
    if texts == [] then first else Return(VStr(texts[0]))
  }

  function InScope(call: Call, inverse: bool): Action {
    Render(inverse, ContextAt(call.env, 0), None, None, None)
  }

  /** handlebars_builtin_with: the argument becomes the context and the block parameter; null renders the inverse. */
  function WithAct(rt: Runtime, call: Call, texts: seq<string>): Action {
    if |call.args| != 1 then Throw
    else
      var v := rt.force(call.args[0]);
      Finish(texts,
        if v == VNull then Render(true, v, None, None, None)
        else Render(false, v, Some(call.env.data), Some(VArray([v])), None))
  }

  function Truthy(rt: Runtime, call: Call, v: Value): bool {
    !IsEmpty(rt, v) || (v == VInt(0) && call.hash.VHash? && exists n ::
      0 <= n < |call.hash.entries| && call.hash.entries[n].key.val == "includeZero")
  }

  /** handlebars_builtin_if: never any block parameters. */
  function IfAct(rt: Runtime, call: Call, texts: seq<string>): Action {
    if |call.args| != 1 then Throw
    else Finish(texts, InScope(call, !Truthy(rt, call, rt.force(call.args[0]))))
  }

  /** handlebars_builtin_unless: if, on the truth value of emptiness. */
  function UnlessAct(rt: Runtime, call: Call, texts: seq<string>): Action {
    if |call.args| != 1 then Throw else Finish(texts, InScope(call, !IsEmpty(rt, call.args[0])))
  }

  /** The items each walks, with their indices or keys. */
  function Items(v: Value): seq<(Value, Value)> {
    match v
    case VArray(items) => seq(|items|, n requires 0 <= n < |items| => (items[n], VInt(n)))
    case VHash(entries) => seq(|entries|, n requires 0 <= n < |entries| => (entries[n].value, VStr(entries[n].key.val)))
    case _ => []
  }

  function Joined(texts: seq<string>): string {
    if texts == [] then "" else texts[0] + Joined(texts[1..])
  }

  /** handlebars_builtin_each: every item with itself and its key as block parameters; without items the inverse. */
  function EachAct(rt: Runtime, call: Call, texts: seq<string>): Action {
    if |call.args| < 1 then Throw
    else
      var items := Items(rt.force(call.args[0]));
      if items == [] then Finish(texts, InScope(call, true))
      else if |texts| < |items| then
        var (item, key) := items[|texts|];
        Render(false, item, Some(rt.eachData(call.env.data, |texts|, |items|, key)), Some(VArray([item, key])), None)
      else Return(VStr(Joined(texts)))
  }

  /** handlebars_builtin_block_helper_missing. */
  function MissingAct(rt: Runtime, call: Call, texts: seq<string>): Action {
    if |call.args| < 1 then Finish(texts, InScope(call, true))
    else
      var v := call.args[0];
      if v == VBool(true) then Finish(texts, InScope(call, false))
      else if IsEmpty(rt, v) && v != VInt(0) then Finish(texts, InScope(call, true))
      else if v.VArray? then EachAct(rt, call, texts)
      else Finish(texts, Render(false, v, None, None, None))
  }

  function BuiltinAct(rt: Runtime, call: Call, texts: seq<string>): Option<Action> {
    match call.kind
    case KnownHelper(name) =>
      if name == "with" then Some(WithAct(rt, call, texts))
      else if name == "if" then Some(IfAct(rt, call, texts))
      else if name == "unless" then Some(UnlessAct(rt, call, texts))
      else if name == "each" then Some(EachAct(rt, call, texts))
      else None
    case BlockHelperMissing(_) => Some(MissingAct(rt, call, texts))
    case _ => None
  }

  /** The interpretation has the built-in block helpers; everything else about it is free. */
  ghost predicate HasBuiltins(i: Interp, rt: Runtime) {
    forall call: Call, texts :: BuiltinAct(rt, call, texts).Some? ==>
      i.act(call, texts) == BuiltinAct(rt, call, texts).value
  }

  const WITHOUT: Way := Way(false, true)
  const WITH_PARAMS: Way := Way(true, false)

  /** with and each give block parameters to their program only, if and unless to neither. */
  function BuiltinTerms(callee: Callee): Terms {
    match callee
    case KnownNamed(name) =>
      if name == "with" || name == "each" then Terms(WITH_PARAMS, WITHOUT)
      else if name == "if" || name == "unless" then Terms(WITHOUT, WITHOUT)
      else ANYHOW
    case Missing => Terms(Way(true, true), WITHOUT)
    case _ => ANYHOW
  }

  const BUILTIN_POLICY: Policy := callee => BuiltinTerms(callee)

  lemma BuiltinsObey(i: Interp, rt: Runtime)
    requires HasBuiltins(i, rt)
    ensures Obeys(i, BUILTIN_POLICY)
  {
    forall call: Call, texts | i.act(call, texts).Render?
      ensures var a, terms := i.act(call, texts), BUILTIN_POLICY(CalleeOf(call.kind));
        Allowed(if a.inverse then terms.inverse else terms.program, a)
    {
      if BuiltinAct(rt, call, texts).Some? {
        assert i.act(call, texts) == BuiltinAct(rt, call, texts).value;
      }
    }
  }

  /**
   With the built-in block helpers, a template runs as it is meant if it compiles, swaps no partial and is
   safe under their policy, which a caller can check from the template alone.
   */
  lemma BuiltinMeaning(i: Interp, rt: Runtime, cfg: Config, p: Program, context: Value, data: Value, fuel: nat)
    requires HasBuiltins(i, rt) && ProgramCompiles(cfg, [], p) && StraightProgram(cfg, p)
    requires SafeBy(cfg, BUILTIN_POLICY, [], [], p, false)
    ensures SameText(i, cfg, p, context, data, fuel)
  {
    BuiltinsObey(i, rt);
    PolicyMeaning(i, cfg, BUILTIN_POLICY, p, context, data, fuel);
  }
}

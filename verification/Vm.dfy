/**
 The opcode effects of src/handlebars_vm.c on its value stack, hash stack, current context,
 last-helper note and output buffer. Helpers, lookups, and the printing of values are
 parameters; a helper may render the programs of its block any number of times.
 */
module Vm {
  import opened HbsString
  import opened Options
  import opened AssocList
  import opened CodeGen

  datatype Value =
    | VNull
    | VInt(n: int)
    | VBool(b: bool)
    | VStr(s: string)
    | VArray(items: seq<Value>)
    | VHash(entries: seq<Pair<Value>>)
    | VOther(id: nat)

  /** Result of running something: Stuck is a fault of the machine, such as an empty stack. */
  datatype Result<+T> = Ok(value: T) | Thrown | OutOfFuel | Stuck {
    predicate IsFailure() { !Ok? }
    function PropagateFailure<U>(): Result<U>
      requires IsFailure()
    {
      match this
      case Thrown => Thrown
      case OutOfFuel => OutOfFuel
      case Stuck => Stuck
    }
    function Extract(): T
      requires Ok?
    {
      value
    }
  }

  /** What a program runs in: context stack, private data, block-parameter stack and partial-block stack, tops last. */
  datatype Env = Env(contexts: seq<Value>, data: Value, blockParams: seq<Value>, blocks: seq<Value>)

  datatype Kind =
    | KnownHelper(name: string)
    | HelperCall(name: string, simple: bool, value: Value)
    | AmbiguousCall(name: string, value: Value, isBlock: bool, text: Option<string>)
    | BlockHelperMissing(blockName: Option<string>)
    | LambdaCall(value: Value)
    | PartialCall(dynamic: Option<Value>, target: Operand)

  /** Everything a helper, lambda or partial can see when it is called. */
  datatype Call = Call(kind: Kind, args: seq<Value>, hash: Value, hasProgram: bool, hasInverse: bool, env: Env)

  /** A callee either asks for one of its programs to be rendered, or finishes. */
  datatype Action =
    | Render(inverse: bool, context: Value, data: Option<Value>, params: Option<Value>, block: Option<Value>)
    | Return(value: Value)
    | Throw

  /**
   The parameters of the model. act is asked again after every rendering, with the texts rendered
   so far. It is a function of those and the call, so a helper may keep what it needs during one
   call, but not from one call to the next.
   */
  datatype Interp = Interp(
    act: (Call, seq<string>) -> Action,
    callable: Value -> bool,
    hasHelper: string -> bool,
    wrapLambda: (Value, string, bool) -> Value,
    same: (Value, Value) -> bool,
    member: (Value, string) -> Option<Value>,
    onContext: (Value, Env, seq<string>, bool, bool) -> Result<Value>,
    fromData: (Env, nat, seq<string>, bool) -> Result<Value>,
    show: (Value, bool) -> string,
    indent: (string, string) -> string,
    hash: string -> nat)

  datatype State = State(stack: seq<Value>, hashes: seq<seq<Pair<Value>>>, context: Value, lastHelper: Option<string>,
      buffer: string)

  const EMPTY_STATE: State := State([], [], VNull, None, "")

  function Top<T>(s: seq<T>, depth: nat): (r: T)
    requires depth < |s|
  {
    s[|s| - 1 - depth]
  }

  function Pop<T>(s: seq<T>): seq<T>
    requires s != []
  {
    s[..|s| - 1]
  }

  // ---- lookups

  function ContextAt(env: Env, depth: nat): Value {
    if depth >= |env.contexts| then VNull else Top(env.contexts, depth)
  }

  /** Follows names into a value; a missing member ends the walk where it is. */
  function Descend(i: Interp, v: Value, names: seq<string>): Value
    decreases |names|
  {
    if names == [] then v
    else match i.member(v, names[0])
      case None => v
      case Some(w) => Descend(i, w, names[1..])
  }

  function Item(params: Value, param: nat): Option<Value> {
    if params.VArray? && param < |params.items| then Some(params.items[param]) else None
  }

  function BlockParam(i: Interp, env: Env, depth: nat, param: nat, parts: seq<string>): Value {
    if depth >= |env.blockParams| then VNull
    else match Item(Top(env.blockParams, depth), param)
      case None => VNull
      case Some(v) => Descend(i, v, if parts == [] then [] else parts[1..])
  }

  function OperandValue(o: Operand): Value {
    match o
    case Text(s) => if s == "undefined" || s == "null" then VNull else VStr(s)
    case Long(n) => VInt(n)
    case Flag(b) => VBool(b)
  }

  function KeyOf(i: Interp, s: string): HString {
    HString(s, i.hash(s))
  }

  // ---- calls

  function GuidValue(g: Option<nat>): Value {
    VInt(if g.Some? then g.value else -1)
  }

  function GuidOf(v: Value): Option<nat> {
    if v.VInt? && v.n >= 0 then Some(v.n) else None
  }

  datatype CallOptions = CallOptions(rest: seq<Value>, args: seq<Value>, hash: Value, program: Option<nat>,
      inverse: Option<nat>)

  /** setup_options: hash, inverse, program and argc arguments come off the stack. */
  function PopOptions(stack: seq<Value>, argc: nat): Result<CallOptions> {
    var n := |stack|;
    if n < argc + 3 then Stuck
    else Ok(CallOptions(stack[..n - 3 - argc], stack[n - 3 - argc..n - 3], stack[n - 1], GuidOf(stack[n - 3]),
      GuidOf(stack[n - 2])))
  }

  function MakeCall(kind: Kind, o: CallOptions, env: Env): Call {
    Call(kind, o.args, o.hash, o.program.Some?, o.inverse.Some?, env)
  }

  /**
   handlebars_vm_execute_program_ex: a context equal to the current one is not pushed again; absent block
   parameters push nothing.
   */
  function Enter(i: Interp, env: Env, a: Action): Env
    requires a.Render?
  {
    Env(
      if env.contexts == [] || !i.same(Top(env.contexts, 0), a.context) then env.contexts + [a.context]
        else env.contexts,
      a.data.GetOr(env.data),
      if a.params.Some? then env.blockParams + [a.params.value] else env.blockParams,
      if a.block.Some? then env.blocks + [a.block.value] else env.blocks)
  }

  /** Lets the callee act until it returns; each rendering costs one unit of fuel. */
  function RunCall(i: Interp, cfg: Config, kids: seq<Prog>, call: Call, program: Option<nat>, inverse: Option<nat>,
      texts: seq<string>, fuel: nat): Result<Value>
    decreases fuel, 0, 0
  {
    match i.act(call, texts)
    case Return(v) => Ok(v)
    case Throw => Thrown
    case Render(inv, c, d, p, b) =>
      if fuel == 0 then OutOfFuel
      else
        var which := if inv then inverse else program;
        var text :-
          if which.None? then Ok("")
          else if which.value >= |kids| then Thrown
          else RunProgram(i, cfg, kids[which.value], Enter(i, call.env, Render(inv, c, d, p, b)), fuel - 1);
        RunCall(i, cfg, kids, call, program, inverse, texts + [text], fuel - 1)
  }

  /** A program starts on empty stacks: the statement that renders it has taken its operands off already. */
  function RunProgram(i: Interp, cfg: Config, p: Prog, env: Env, fuel: nat): Result<string>
    decreases fuel, 3, 0
  {
    var st :- Run(i, cfg, p.kids, p.ops, EMPTY_STATE, env, fuel);
    Ok(st.buffer)
  }

  function Run(i: Interp, cfg: Config, kids: seq<Prog>, ops: seq<Op>, st: State, env: Env, fuel: nat): Result<State>
    decreases fuel, 2, |ops|
  {
    if ops == [] then Ok(st)
    else
      var st' :- Step(i, cfg, kids, ops[0], st, env, fuel);
      Run(i, cfg, kids, ops[1..], st', env, fuel)
  }

  /** Which helper an ambiguous call leaves noted for the block that may follow. */
  function HelperNote(i: Interp, cfg: Config, name: string, value: Value): Option<string> {
    if cfg.mustacheLambdas && i.callable(value) then Some("lambda")
    else if i.hasHelper(name) then Some(name)
    else None
  }

  /** A null result of an ambiguous call is replaced by the looked-up value. */
  function OrLookedUp(i: Interp, cfg: Config, r: Value, value: Value, isBlock: bool, text: Option<string>): Value {
    if r != VNull then r
    else if cfg.mustacheLambdas && i.callable(value) then i.wrapLambda(value, text.GetOr(""), isBlock)
    else value
  }

  function Step(i: Interp, cfg: Config, kids: seq<Prog>, op: Op, st: State, env: Env, fuel: nat): Result<State>
    decreases fuel, 1, 0
  {
    match op
    case GetContext(d) => Ok(st.(context := ContextAt(env, d)))
    case PushContext => Ok(st.(stack := st.stack + [st.context]))
    case LookupOnContext(parts, _, strict, scoped) =>
      var v :- i.onContext(st.context, env, parts, strict, scoped);
      Ok(st.(stack := st.stack + [v]))
    case LookupData(d, parts, strict) =>
      var v :- i.fromData(env, d, parts, strict);
      Ok(st.(stack := st.stack + [v]))
    case LookupBlockParam(d, p, parts) => Ok(st.(stack := st.stack + [BlockParam(i, env, d, p, parts)]))
    case PushLiteral(o) => Ok(st.(stack := st.stack + [OperandValue(o)]))
    case PushString(s) => Ok(st.(stack := st.stack + [VStr(s)]))
    case PushProgram(g) => Ok(st.(stack := st.stack + [GuidValue(g)]))
    case PushHash => Ok(st.(hashes := st.hashes + [[]]))
    case AssignToHash(k) =>
      if st.hashes == [] || st.stack == [] then Stuck
      else Ok(st.(stack := Pop(st.stack), hashes := Pop(st.hashes) +
        [Put(Top(st.hashes, 0), KeyOf(i, k), Top(st.stack, 0))]))
    case PopHash =>
      if st.hashes == [] then Stuck
      else Ok(st.(stack := st.stack + [VHash(Top(st.hashes, 0))], hashes := Pop(st.hashes)))
    case EmptyHash(_) => Ok(st.(stack := st.stack + [VHash([])]))
    case InvokeHelper(argc, name, simple) =>
      if st.stack == [] then Stuck
      else
        var o :- PopOptions(Pop(st.stack), argc);
        var r :- RunCall(i, cfg, kids, MakeCall(HelperCall(name, simple, Top(st.stack, 0)), o, env), o.program,
          o.inverse, [], fuel);
        Ok(st.(stack := o.rest + [r]))
    case InvokeKnownHelper(argc, name) =>
      var o :- PopOptions(st.stack, argc);
      if !i.hasHelper(name) then Thrown
      else
        var r :- RunCall(i, cfg, kids, MakeCall(KnownHelper(name), o, env), o.program, o.inverse, [], fuel);
        Ok(st.(stack := o.rest + [r]))
    case InvokeAmbiguous(name, isBlock, text) =>
      if st.stack == [] then Stuck
      else
        var v := Top(st.stack, 0);
        var o :- PopOptions(Pop(st.stack) + [VHash([])], 0);
        var r :- RunCall(i, cfg, kids, MakeCall(AmbiguousCall(name, v, isBlock, text), o, env), o.program, o.inverse,
          [], fuel);
        Ok(st.(stack := o.rest + [OrLookedUp(i, cfg, r, v, isBlock, text)], lastHelper := HelperNote(i, cfg, name, v)))
    case ResolvePossibleLambda =>
      if st.stack == [] then Stuck
      else
        var v := Top(st.stack, 0);
        if !i.callable(v) then Ok(st)
        else
          var r :- RunCall(i, cfg, kids, Call(LambdaCall(v), [ContextAt(env, 0)], VNull, false, false, env), None, None,
            [], fuel);
          Ok(st.(stack := Pop(st.stack) + [r]))
    case BlockValue(name) =>
      var o :- PopOptions(st.stack, 1);
      var r :- RunCall(i, cfg, kids, MakeCall(BlockHelperMissing(Some(name)), o, env), o.program, o.inverse, [], fuel);
      Ok(st.(stack := o.rest, buffer := st.buffer + i.show(r, false)))
    case AmbiguousBlockValue =>
      if st.lastHelper.None? then
        var o :- PopOptions(st.stack, 1);
        var r :- RunCall(i, cfg, kids, MakeCall(BlockHelperMissing(None), o, env), o.program, o.inverse, [], fuel);
        Ok(st.(stack := o.rest + [r]))
      else
        var o :- PopOptions(st.stack, 0);
        Ok(st.(stack := o.rest, lastHelper := if st.lastHelper == Some("lambda") then None else st.lastHelper))
    case InvokePartial(dynamic, target, indent) =>
      var o :- PopOptions(st.stack, 1);
      if dynamic && o.rest == [] then Stuck
      else
        var name := if dynamic then Some(Top(o.rest, 0)) else None;
        var r :- RunCall(i, cfg, kids, MakeCall(PartialCall(name, target), o, env), o.program, o.inverse, [], fuel);
        Ok(st.(stack := if dynamic then Pop(o.rest) else o.rest, buffer := st.buffer +
          i.indent(i.show(r, false), indent)))
    case Append => Ok(AppendTop(i, st, false))
    case AppendEscaped => Ok(AppendTop(i, st, true))
    case AppendContent(s) => Ok(st.(buffer := st.buffer + s))
    case RegisterDecorator(_, _) => Thrown
  }

  /** append and append_escaped: popping an empty stack is not an error, it appends nothing. */
  function AppendTop(i: Interp, st: State, escape: bool): State {
    if st.stack == [] then st
    else st.(stack := Pop(st.stack), buffer := st.buffer + i.show(Top(st.stack, 0), escape))
  }
}

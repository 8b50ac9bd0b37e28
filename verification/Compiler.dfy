/**
 The compiler of src/handlebars_compiler.c as it runs: it appends to an opcode list, a child list
 and result flags, counts children, and shares a stack of block parameters and one of source nodes with its
 sub-compilers. Whatever goes wrong ends the whole compilation, so nothing is said about the state after that.
 */
module Compiler {
  import opened Options
  import opened Ast
  import opened CodeGen
  import opened NodeStack

  class BlockParamStack {
    const s: array<Names>
    var i: nat

    constructor ()
      ensures i == 0 && s.Length == STACK_SIZE && fresh(s)
    {
      s := new Names[STACK_SIZE](_ => Names(None, None));
      i := 0;
    }
  }

  /** How many nodes are being compiled; which they are matters for source locations only. */
  class SourceNodeStack {
    var i: nat

    constructor ()
      ensures i == 0
    {
      i := 0;
    }

    /** The guard asks for more than there is: a stack that is full is overrun. */
    method Push() returns (v: Verdict)
      requires i <= STACK_SIZE
      modifies this
      ensures v == PathVerdict(STACK_SIZE - old(i))
      ensures v.Done? ==> i == old(i) + 1 <= STACK_SIZE
    {
      if i == STACK_SIZE {
        return Overrun;
      }
      i := i + 1;
      v := Done;
    }

    method Pop()
      requires i > 0
      modifies this
      ensures i == old(i) - 1
    {
      i := i - 1;
    }
  }

  // ---- result flags of concatenations

  lemma FactsOfConcat(a: seq<Op>, b: seq<Op>, k: seq<Prog>, l: seq<Prog>)
    ensures FactsOf(a + b, k + l) == Or(FactsOf(a, k), FactsOf(b, l))
  {
    var ops, kids := a + b, k + l;
    assert forall n :: 0 <= n < |a| ==> ops[n] == a[n];
    assert forall n :: 0 <= n < |b| ==> ops[|a| + n] == b[n];
    assert forall n :: 0 <= n < |k| ==> kids[n] == k[n];
    assert forall n :: 0 <= n < |l| ==> kids[|k| + n] == l[n];
  }

  /** The flags one opcode accounts for. */
  function OpFacts(op: Op): Facts {
    Facts(Deep(op), op.InvokePartial?, false, op.RegisterDecorator?)
  }

  lemma FactsOfAppend(ops: seq<Op>, kids: seq<Prog>, op: Op)
    ensures FactsOf(ops + [op], kids) == Or(FactsOf(ops, kids), OpFacts(op))
  {
    FactsOfConcat(ops, [op], kids, []);
    assert kids + [] == kids;
    assert [op][0] == op;
    assert FactsOf([op], []) == OpFacts(op);
  }

  class Compiler {
    const cfg: Config
    const bps: BlockParamStack
    const sns: SourceNodeStack
    var ops: seq<Op>
    var kids: seq<Prog>
    var facts: Facts
    var blockParams: nat
    var guid: nat

    /** A program whose parameters are stacked is a node on the other stack: the guard on the first never fires. */
    ghost predicate Valid()
      reads this, bps, sns
    {
      && bps.s.Length == STACK_SIZE && bps.i <= sns.i <= STACK_SIZE
      && guid == |kids|
      && facts == FactsOf(ops, kids)
    }

    ghost function Enclosing(): Scope
      reads bps, bps.s
      requires bps.i <= bps.s.Length
    {
      bps.s[..bps.i]
    }

    /** How many more nodes find a place. */
    ghost function Room(): nat
      reads sns
    {
      if sns.i <= STACK_SIZE then STACK_SIZE - sns.i else 0
    }

    /** The opcodes were appended, nothing else changed. */
    twostate predicate Emitted(emitted: seq<Op>)
      reads this, bps, bps.s, sns
      requires old(bps.i) <= bps.s.Length
    {
      && ops == old(ops) + emitted
      && kids == old(kids)
      && blockParams == old(blockParams)
      && bps.i == old(bps.i) && sns.i == old(sns.i) && Enclosing() == old(Enclosing())
    }

    constructor (cfg: Config, bps: BlockParamStack, sns: SourceNodeStack)
      requires bps.s.Length == STACK_SIZE && bps.i <= sns.i <= STACK_SIZE
      ensures Valid() && this.cfg == cfg && this.bps == bps && this.sns == sns
      ensures ops == [] && kids == [] && blockParams == 0
    {
      this.cfg, this.bps, this.sns := cfg, bps, sns;
      ops, kids, facts, blockParams, guid := [], [], NO_FACTS, 0, 0;
    }

    /** handlebars_compiler_opcode, for opcodes that touch no flag. */
    method Opcode(op: Op)
      requires Valid() && OpFacts(op) == NO_FACTS
      modifies this`ops
      ensures Valid() && Emitted([op])
    {
      FactsOfAppend(ops, kids, op);
      ops := ops + [op];
    }

    /** handlebars_compiler_opcode together with the flag that goes with the opcode. */
    method FlaggedOpcode(op: Op)
      requires Valid()
      modifies this`ops, this`facts
      ensures Valid() && Emitted([op])
    {
      FactsOfAppend(ops, kids, op);
      facts := Or(facts, OpFacts(op));
      ops := ops + [op];
    }

    /** Innermost program first, first parameter first. */
    method BlockParamIndex(name: string) returns (found: bool, depth: nat, param: nat)
      requires Valid()
      ensures Resolve(Enclosing(), name) == if found then Some(Ref(depth, param)) else None
    {
      ghost var scope := Enclosing();
      var l := bps.i;
      depth, param := 0, 0;
      assert scope[..l] == scope;
      while depth < l
        invariant depth <= l
        invariant Resolve(scope, name) ==
          match Resolve(scope[..l - depth], name)
          case None => None
          case Some(r) => Some(Ref(r.depth + depth, r.param))
      {
        var pair := bps.s[l - depth - 1];
        assert pair == scope[..l - depth][l - depth - 1];
        assert scope[..l - depth][..l - depth - 1] == scope[..l - depth - 1];
        if pair.first == Some(name) {
          return true, depth, 0;
        } else if pair.second == Some(name) {
          return true, depth, 1;
        }
        depth := depth + 1;
      }
      assert scope[..0] == [];
      found := false;
    }

    method ClassifySexpr(call: CallExpr, sub: bool) returns (c: Class)
      requires Valid()
      ensures c == Classify(cfg, Enclosing(), call, sub)
    {
      var path := HeadPath(call.head);
      var isSimple := SimpleId(path);
      var isBlockParam := false;
      if isSimple {
        var depth, param;
        isBlockParam, depth, param := BlockParamIndex(path.parts[0]);
      }
      var isHelper := !isBlockParam && (sub || HasArguments(call));
      var isEligible := !isBlockParam && (isSimple || isHelper);
      if isEligible && !isHelper {
        if IsKnownHelper(cfg, path) {
          isHelper := true;
        } else if cfg.knownHelpersOnly {
          isEligible := false;
        }
      }
      c := if isHelper then Helper else if isEligible then Ambiguous else Simple;
    }

    method AcceptPath(path: Path, strict: bool, falsy: bool)
      requires Valid()
      modifies this`ops, this`facts
      ensures Valid() && Emitted(PathOps(Enclosing(), path, strict, falsy))
    {
      FlaggedOpcode(GetContext(path.depth));
      var found, depth, param := false, 0, 0;
      if path.depth == 0 && !ScopedId(path) && path.parts != [] {
        found, depth, param := BlockParamIndex(path.parts[0]);
      }
      if found {
        Opcode(LookupBlockParam(depth, param, path.parts));
      } else if path.parts == [] {
        Opcode(PushContext);
      } else if path.data {
        Opcode(LookupData(path.depth, path.parts, strict));
      } else {
        Opcode(LookupOnContext(path.parts, falsy, strict, ScopedId(path)));
      }
    }

    /** A path that is compiled as a node of its own. */
    method AcceptPathNode(path: Path, strict: bool, falsy: bool) returns (v: Verdict)
      requires Valid()
      modifies this`ops, this`facts, sns
      ensures v == PathVerdict(old(Room()))
      ensures v.Done? ==> Valid() && Emitted(PathOps(Enclosing(), path, strict, falsy))
    {
      v := sns.Push();
      if !v.Done? { return; }
      AcceptPath(path, strict, falsy);
      sns.Pop();
    }

    method AcceptExpr(e: Expr) returns (v: Verdict)
      requires Valid()
      modifies this`ops, this`facts, sns
      ensures v == ExprVerdict(cfg, Enclosing(), old(Room()), e)
      ensures v.Done? ==> Valid() && Emitted(ExprOps(cfg, Enclosing(), e))
      decreases e, 0
    {
      hide CallVerdict, CallOps, PathOps, FactsOf;
      v := sns.Push();
      if !v.Done? { return; }
      match e {
        case PathExpr(p) => AcceptPath(p, false, false);
        case LitExpr(l) => Opcode(LiteralOp(cfg, l));
        case SubExpr(call) =>
          v := AcceptSexpr(call, true, None, None, "");
          if !v.Done? { return; }
      }
      sns.Pop();
    }

    method PushParams(params: seq<Expr>) returns (v: Verdict)
      requires Valid()
      modifies this`ops, this`facts, sns
      ensures v == ParamsVerdict(cfg, Enclosing(), old(Room()), params)
      ensures v.Done? ==> Valid() && Emitted(ParamsOps(cfg, Enclosing(), params))
      decreases params, 0
    {
      hide ExprVerdict, ExprOps, FactsOf;
      ghost var room := Room();
      var n := 0;
      assert params[0..] == params;
      while n < |params|
        invariant n <= |params| && Valid()
        invariant kids == old(kids) && blockParams == old(blockParams) && sns.i == old(sns.i)
        invariant ops + ParamsOps(cfg, Enclosing(), params[n..]) == old(ops) + ParamsOps(cfg, Enclosing(), params)
        invariant ParamsVerdict(cfg, Enclosing(), room, params) == ParamsVerdict(cfg, Enclosing(), room, params[n..])
      {
        assert params[n..][0] == params[n] && params[n..][1..] == params[n + 1..];
        ghost var before := ops;
        v := AcceptExpr(params[n]);
        if !v.Done? { return; }
        AppendAssoc(before, ExprOps(cfg, Enclosing(), params[n]), ParamsOps(cfg, Enclosing(), params[n + 1..]));
        n := n + 1;
      }
      assert params[n..] == [];
      v := Done;
    }

    /** Pushes the values first to last, remembering the keys, then assigns the keys last to first. */
    method AcceptHash(pairs: seq<HashPair>) returns (v: Verdict)
      requires Valid()
      modifies this`ops, this`facts, sns
      ensures v == ValuesVerdict(cfg, Enclosing(), old(Room()), pairs)
      ensures v.Done? ==> Valid() && Emitted(HashOps(cfg, Enclosing(), pairs))
      decreases pairs, 2
    {
      hide FactsOf, ValuesOps, ValuesVerdict, AssignOps;
      var keys;
      Opcode(PushHash);
      keys, v := PushValues(pairs);
      if !v.Done? { return; }
      AssignKeys(keys, pairs);
      Opcode(PopHash);
      assert ops == old(ops) + HashOps(cfg, Enclosing(), pairs);
    }

    /** The values of the pairs, first to last; their keys are kept for later. */
    method PushValues(pairs: seq<HashPair>) returns (keys: seq<string>, v: Verdict)
      requires Valid()
      modifies this`ops, this`facts, sns
      ensures v == ValuesVerdict(cfg, Enclosing(), old(Room()), pairs)
      ensures v.Done? ==> Valid() && Emitted(ValuesOps(cfg, Enclosing(), pairs))
      ensures v.Done? ==> |keys| == |pairs| && forall j :: 0 <= j < |keys| ==> keys[j] == pairs[j].key
      decreases pairs, 1
    {
      hide FactsOf, ExprOps, ExprVerdict;
      ghost var room := Room();
      keys := [];
      ghost var values := ValuesOps(cfg, Enclosing(), pairs);
      var n := 0;
      assert pairs[0..] == pairs;
      while n < |pairs|
        invariant n == |keys| <= |pairs| && Valid()
        invariant kids == old(kids) && blockParams == old(blockParams) && sns.i == old(sns.i)
        invariant forall j :: 0 <= j < n ==> keys[j] == pairs[j].key
        invariant ops + ValuesOps(cfg, Enclosing(), pairs[n..]) == old(ops) + values
        invariant ValuesVerdict(cfg, Enclosing(), room, pairs) == ValuesVerdict(cfg, Enclosing(), room, pairs[n..])
      {
        assert pairs[n..][0] == pairs[n] && pairs[n..][1..] == pairs[n + 1..];
        ghost var before := ops;
        v := AcceptExpr(pairs[n].value);
        if !v.Done? { return; }
        AppendAssoc(before, ExprOps(cfg, Enclosing(), pairs[n].value), ValuesOps(cfg, Enclosing(), pairs[n + 1..]));
        keys := keys + [pairs[n].key];
        n := n + 1;
      }
      assert pairs[n..] == [];
      assert ops == old(ops) + values;
      v := Done;
    }

    /** The keys of the pairs, last to first. */
    method AssignKeys(keys: seq<string>, ghost pairs: seq<HashPair>)
      requires Valid() && |keys| == |pairs| && forall j :: 0 <= j < |keys| ==> keys[j] == pairs[j].key
      modifies this`ops, this`facts
      ensures Valid() && Emitted(AssignOps(pairs))
    {
      hide FactsOf;
      var i := |keys|;
      assert pairs[i..] == [] && ops + [] == ops;
      while i > 0
        invariant 0 <= i <= |pairs| && Valid()
        invariant kids == old(kids) && blockParams == old(blockParams)
        invariant ops == old(ops) + AssignOps(pairs[i..])
      {
        i := i - 1;
        assert pairs[i..][0] == pairs[i] && pairs[i..][1..] == pairs[i + 1..];
        Opcode(AssignToHash(keys[i]));
      }
      assert pairs[0..] == pairs;
    }

    method PushProgramPair(program: Option<nat>, inverse: Option<nat>)
      requires Valid()
      modifies this`ops
      ensures Valid() && Emitted(PairOps(program, inverse))
    {
      Opcode(PushProgram(program));
      Opcode(PushProgram(inverse));
    }

    method SetupFullMustacheParams(args: Args, program: Option<nat>, inverse: Option<nat>, omitEmpty: bool)
        returns (v: Verdict)
      requires Valid()
      modifies this`ops, this`facts, sns
      ensures v == ArgsVerdict(cfg, Enclosing(), old(Room()), args)
      ensures v.Done? ==> Valid() && Emitted(SetupOps(cfg, Enclosing(), args, program, inverse, omitEmpty))
      decreases args, 1
    {
      hide ParamsVerdict, HashVerdict, ParamsOps, HashArgOps, FactsOf;
      v := PushParams(args.params);
      if !v.Done? { return; }
      PushProgramPair(program, inverse);
      v := PushHashArg(args.hash, omitEmpty);
    }

    method PushHashArg(hash: Hash, omitEmpty: bool) returns (v: Verdict)
      requires Valid()
      modifies this`ops, this`facts, sns
      ensures v == HashVerdict(cfg, Enclosing(), old(Room()), hash)
      ensures v.Done? ==> Valid() && Emitted(HashArgOps(cfg, Enclosing(), hash, omitEmpty))
      decreases hash, 3
    {
      hide ValuesVerdict, HashOps, FactsOf;
      match hash {
        case Hash(pairs) =>
          v := sns.Push();
          if !v.Done? { return; }
          v := AcceptHash(pairs);
          if !v.Done? { return; }
          sns.Pop();
        case NoHash =>
          Opcode(EmptyHash(omitEmpty));
          v := Done;
      }
    }

    method AcceptSexprHelper(call: CallExpr, program: Option<nat>, inverse: Option<nat>) returns (v: Verdict)
      requires Valid()
      modifies this`ops, this`facts, sns
      ensures v == Then(ArgsVerdict(cfg, Enclosing(), old(Room()), call.args),
        CalleeVerdict(cfg, old(Room()), HeadPath(call.head)))
      ensures v.Done? ==> Valid() && Emitted(HelperOps(cfg, Enclosing(), call, program, inverse))
      decreases call, 0
    {
      hide ArgsVerdict, SetupOps, PathOps, FactsOf;
      var path := HeadPath(call.head);
      v := SetupFullMustacheParams(call.args, program, inverse, false);
      if !v.Done? { return; }
      if IsKnownHelper(cfg, path) {
        Opcode(InvokeKnownHelper(|call.args.params|, path.parts[0]));
      } else if cfg.knownHelpersOnly {
        v := Thrown;
      } else {
        v := AcceptPathNode(path, true, true);
        if !v.Done? { return; }
        Opcode(InvokeHelper(|call.args.params|, path.original, SimpleId(path)));
      }
    }

    method AcceptSexprSimple(path: Path) returns (v: Verdict)
      requires Valid()
      modifies this`ops, this`facts, sns
      ensures v == PathVerdict(old(Room()))
      ensures v.Done? ==> Valid() && Emitted(PathOps(Enclosing(), path, true, false) + [ResolvePossibleLambda])
    {
      hide PathOps, FactsOf;
      v := AcceptPathNode(path, true, false);
      if !v.Done? { return; }
      Opcode(ResolvePossibleLambda);
    }

    /** The leading get_context sets no flag here; an ambiguous path has depth 0. */
    method AcceptSexprAmbiguous(path: Path, program: Option<nat>, inverse: Option<nat>, text: string)
        returns (v: Verdict)
      requires Valid() && SimpleId(path)
      modifies this`ops, this`facts, sns
      ensures v == PathVerdict(old(Room()))
      ensures v.Done? ==> Valid() && Emitted(AmbiguousOps(cfg, Enclosing(), path, program, inverse, text))
    {
      hide PathOps, FactsOf;
      var isBlock := program.Some? || inverse.Some?;
      Opcode(GetContext(path.depth));
      PushProgramPair(program, inverse);
      v := AcceptPathNode(path, true, false);
      if !v.Done? { return; }
      Opcode(InvokeAmbiguous(path.parts[0], isBlock, if cfg.mustacheLambdas then Some(text) else None));
    }

    /** handlebars_compiler_accept_sexpr, and the same dispatch in the two kinds of block. */
    method AcceptSexpr(call: CallExpr, sub: bool, program: Option<nat>, inverse: Option<nat>, text: string)
        returns (v: Verdict)
      requires Valid()
      modifies this`ops, this`facts, sns
      ensures v == CallVerdict(cfg, Enclosing(), old(Room()), call, sub)
      ensures v.Done? ==> Valid() && Emitted(CallOps(cfg, Enclosing(), call, sub, program, inverse, text))
      decreases call, 1
    {
      hide ArgsVerdict, CalleeVerdict, HelperOps, AmbiguousOps, PathOps, FactsOf;
      var path := HeadPath(call.head);
      var c := ClassifySexpr(call, sub);
      match c {
        case Helper => v := AcceptSexprHelper(call, program, inverse);
        case Simple => v := AcceptSexprSimple(path);
        case Ambiguous => v := AcceptSexprAmbiguous(path, program, inverse, text);
      }
    }

    // ---- statements

    /** Opcodes and children were appended, nothing else changed, and the block-parameter stack is balanced. */
    twostate predicate Appended(emitted: seq<Op>, compiled: seq<Prog>)
      reads this, bps, bps.s, sns
      requires old(bps.i) <= bps.s.Length
    {
      && ops == old(ops) + emitted
      && kids == old(kids) + compiled
      && blockParams == old(blockParams)
      && bps.i == old(bps.i) && sns.i == old(sns.i) && Enclosing() == old(Enclosing())
    }

    method AcceptContent(v: string)
      requires Valid()
      modifies this`ops
      ensures Valid() && Emitted(ContentOps(v))
    {
      if |v| > 0 {
        Opcode(AppendContent(v));
      }
    }

    method AcceptDecorator(call: CallExpr, original: string, program: Option<nat>) returns (v: Verdict)
      requires Valid()
      modifies this`ops, this`facts, sns
      ensures v == ArgsVerdict(cfg, Enclosing(), old(Room()), call.args)
      ensures v.Done? ==> Valid() && Emitted(DecoratorOps(cfg, Enclosing(), call, original, program))
    {
      hide ArgsVerdict, SetupOps, FactsOf;
      v := SetupFullMustacheParams(call.args, program, None, false);
      if !v.Done? { return; }
      FlaggedOpcode(RegisterDecorator(|call.args.params|, original));
    }

    method AcceptMustache(call: CallExpr, unescaped: bool, decorator: bool) returns (v: Verdict)
      requires Valid()
      modifies this`ops, this`facts, sns
      ensures v == InsideVerdict(cfg, Enclosing(), old(Room()), Mustache(call, unescaped, decorator))
      ensures v.Done? ==> Valid() && Emitted(StmtOps(cfg, Enclosing(), Mustache(call, unescaped, decorator), |kids|))
    {
      if decorator {
        v := AcceptDecorator(call, HeadText(call.head), None);
      } else {
        v := AcceptSexpr(call, false, None, None, "");
        if !v.Done? { return; }
        Opcode(if !unescaped && !cfg.noEscape then AppendEscaped else Append);
      }
    }

    /** A plain value or an ambiguous one as the opening of a block: the block part follows the lookup. */
    method AcceptBlockCall(s: Stmt, program: Option<nat>, inverse: Option<nat>, ghost base: nat) returns (v: Verdict)
      requires Valid() && s.Block? && !s.decorator
      requires program == ProgramGuid(s, base) && inverse == InverseGuid(s, base)
      modifies this`ops, this`facts, sns
      ensures v == CallVerdict(cfg, Enclosing(), old(Room()), s.call, false)
      ensures v.Done? ==> Valid() && Emitted(BlockOps(cfg, Enclosing(), s, base))
    {
      hide CallOps, CallVerdict, FactsOf, PairOps, Classify;
      v := AcceptSexpr(s.call, false, program, inverse, BlockText(s));
      if !v.Done? { return; }
      var c := ClassifySexpr(s.call, false);
      match c {
        case Helper =>
        case Simple => AcceptBlockValue(program, inverse, BlockValue(HeadPath(s.call.head).original));
        case Ambiguous => AcceptBlockValue(program, inverse, AmbiguousBlockValue);
      }
      Opcode(Append);
      assert ops == old(ops) + (CallOps(cfg, Enclosing(), s.call, false, program, inverse, BlockText(s)) +
        BlockTail(cfg, Enclosing(), s, base) + [Append]);
    }

    method AcceptBlockValue(program: Option<nat>, inverse: Option<nat>, op: Op)
      requires Valid() && OpFacts(op) == NO_FACTS
      modifies this`ops
      ensures Valid() && Emitted(PairOps(program, inverse) + [EmptyHash(false), op])
    {
      PushProgramPair(program, inverse);
      Opcode(EmptyHash(false));
      Opcode(op);
    }

    method AcceptBlock(s: Stmt) returns (v: Verdict)
      requires Valid() && s.Block?
      modifies this, bps`i, bps.s, sns
      ensures v == InsideVerdict(cfg, old(Enclosing()), old(Room()), s)
      ensures v.Done? ==> Valid() && Appended(StmtOps(cfg, Enclosing(), s, old(|kids|)), StmtKids(cfg, Enclosing(), s))
      decreases s, 0
    {
      hide FactsOf, ArgsVerdict, CallVerdict, OptionalVerdict, DecoratorOps, BlockOps, CompileProgram;
      ghost var base := |kids|;
      var g, ig;
      v, g := CompileChild(s.program);
      if !v.Done? { return; }
      if s.decorator {
        v := AcceptDecorator(s.call, HeadPath(s.call.head).original, g);
      } else {
        v, ig := CompileChild(s.inverse);
        if !v.Done? { return; }
        v := AcceptBlockCall(s, g, ig, base);
      }
    }

    method AcceptRawBlock(s: Stmt) returns (v: Verdict)
      requires Valid() && s.RawBlock?
      modifies this, sns
      ensures v == InsideVerdict(cfg, Enclosing(), old(Room()), s)
      ensures v.Done? ==> Valid() && Appended(StmtOps(cfg, Enclosing(), s, old(|kids|)), StmtKids(cfg, Enclosing(), s))
    {
      hide FactsOf, CallVerdict, BlockOps;
      ghost var base := |kids|;
      var g;
      v, g := CompileContent(s.content);
      if !v.Done? { return; }
      v := AcceptBlockCall(AsBlock(s), Some(g), None, base);
    }

    method AcceptPartial(s: Stmt) returns (v: Verdict)
      requires Valid() && s.Partial?
      modifies this, bps`i, bps.s, sns
      ensures v == InsideVerdict(cfg, old(Enclosing()), old(Room()), s)
      ensures v.Done? ==> Valid() && Appended(StmtOps(cfg, Enclosing(), s, old(|kids|)), StmtKids(cfg, Enclosing(), s))
      decreases s, 0
    {
      hide FactsOf, SetupOps, NameVerdict, OptionalVerdict, ArgsVerdict, OptionalKid, PartialTail, HeadText;
      hide PartialContextOps, PartialNameOps;
      ghost var base := |kids|;
      var params := s.args.params;
      if |params| > 1 { return Thrown; }
      if |params| == 0 && !cfg.explicitPartialContext {
        params := [PathExpr(IMPLICIT_CONTEXT)];
      }
      v := BeginPartial(s);
      if !v.Done? { return; }
      var g;
      v, g := CompileChild(s.program);
      if !v.Done? { return; }
      assert s.args.(params := params) == PartialArgs(cfg, s.args);
      v := SetupFullMustacheParams(s.args.(params := params), g, None, true);
      if !v.Done? { return; }
      EndPartial(s);
      AppendFour(old(ops), PartialContextOps(cfg, s.args.params), PartialNameOps(cfg, Enclosing(), s.name),
        SetupOps(cfg, Enclosing(), PartialArgs(cfg, s.args), g, None, true), PartialTail(cfg, s));
    }

    /** What precedes the parameters: an explicit empty context, then a computed name. */
    method BeginPartial(s: Stmt) returns (v: Verdict)
      requires Valid() && s.Partial?
      modifies this`ops, this`facts, sns
      ensures v == NameVerdict(cfg, Enclosing(), old(Room()), s.name)
      ensures v.Done? ==>
        Valid() && Emitted(PartialContextOps(cfg, s.args.params) + PartialNameOps(cfg, Enclosing(), s.name))
    {
      hide CallVerdict, CallOps, FactsOf;
      v := Done;
      if |s.args.params| == 0 && cfg.explicitPartialContext {
        Opcode(PushLiteral(Text("undefined")));
      }
      if s.name.Dynamic? {
        v := sns.Push();
        if !v.Done? { return; }
        v := AcceptSexpr(s.name.call, true, None, None, "");
        if !v.Done? { return; }
        sns.Pop();
      }
    }

    method EndPartial(s: Stmt)
      requires Valid() && s.Partial?
      modifies this`ops, this`facts, sns
      ensures Valid() && Emitted(PartialTail(cfg, s))
    {
      if cfg.preventIndent && |s.indent| > 0 {
        Opcode(AppendContent(s.indent));
      }
      FlaggedOpcode(InvokePartial(s.name.Dynamic?, PartialOperand(cfg, s.name), if cfg.preventIndent then ""
        else s.indent));
      Opcode(Append);
    }

    method AcceptStatement(s: Stmt) returns (v: Verdict)
      requires Valid()
      modifies this, bps`i, bps.s, sns
      ensures v == StmtVerdict(cfg, old(Enclosing()), old(Room()), s)
      ensures v.Done? ==> Valid() && Appended(StmtOps(cfg, Enclosing(), s, old(|kids|)), StmtKids(cfg, Enclosing(), s))
      decreases s, 2
    {
      hide InsideVerdict, StmtOps, StmtKids, FactsOf;
      v := sns.Push();
      if !v.Done? { return; }
      v := AcceptInside(s);
      if !v.Done? { return; }
      sns.Pop();
    }

    /** The switch in handlebars_compiler_accept, as far as statements go. */
    method AcceptInside(s: Stmt) returns (v: Verdict)
      requires Valid()
      modifies this, bps`i, bps.s, sns
      ensures v == InsideVerdict(cfg, old(Enclosing()), old(Room()), s)
      ensures v.Done? ==> Valid() && Appended(StmtOps(cfg, Enclosing(), s, old(|kids|)), StmtKids(cfg, Enclosing(), s))
      decreases s, 1
    {
      v := Done;
      match s {
        case Content(text) => AcceptContent(text);
        case Comment =>
        case Mustache(call, unescaped, decorator) => v := AcceptMustache(call, unescaped, decorator);
        case Block(_, _, _, _, _) => v := AcceptBlock(s);
        case RawBlock(_, _) => v := AcceptRawBlock(s);
        case Partial(_, _, _, _) => v := AcceptPartial(s);
      }
    }

    // ---- programs

    /** handlebars_compiler_accept_program, for a program whose node has been pushed. */
    method AcceptProgram(p: Program) returns (v: Verdict)
      requires Valid() && bps.i < sns.i
      modifies this, bps`i, bps.s, sns
      ensures v == BodyVerdict(cfg, Inner(old(Enclosing()), p), old(Room()), p.stmts)
      ensures v.Done? ==> bps.i == old(bps.i) && sns.i == old(sns.i) && Enclosing() == old(Enclosing())
      ensures v.Done? ==> guid == |kids|
      ensures v.Done? ==> ops == old(ops) + BodyOps(cfg, Inner(Enclosing(), p), p.stmts, old(|kids|))
      ensures v.Done? ==> kids == old(kids) + BodyKids(cfg, Inner(Enclosing(), p), p.stmts)
      ensures v.Done? ==> facts == Or(FactsOf(ops, kids), Facts(false, false, |p.stmts| == 1, false))
      ensures v.Done? ==> blockParams == old(blockParams) + ParamCount(p)
      decreases p, 0
    {
      hide BodyVerdict, BodyOps, BodyKids, FactsOf, Inner, Or, ParamCount;
      StackNames(p);
      v := AcceptStatements(p.stmts);
      if !v.Done? { return; }
      bps.i := bps.i - 1;
      assert Enclosing() == old(Enclosing()) by { InnerPrefix(old(Enclosing()), p); }
      Record(p);
    }

    method Record(p: Program)
      modifies this`facts, this`blockParams
      ensures facts == Or(old(facts), Facts(false, false, |p.stmts| == 1, false))
      ensures blockParams == old(blockParams) + ParamCount(p)
    {
      if |p.stmts| == 1 {
        facts := facts.(isSimple := true);
      }
      if p.param1.Some? { blockParams := blockParams + 1; }
      if p.param2.Some? { blockParams := blockParams + 1; }
    }

    method StackNames(p: Program)
      requires bps.s.Length == STACK_SIZE && bps.i < STACK_SIZE
      modifies bps`i, bps.s
      ensures bps.i == old(bps.i) + 1 && Enclosing() == Inner(old(Enclosing()), p)
    {
      bps.s[bps.i] := Names(p.param1, p.param2);
      bps.i := bps.i + 1;
    }

    method AcceptStatements(stmts: seq<Stmt>) returns (v: Verdict)
      requires Valid()
      modifies this, bps`i, bps.s, sns
      ensures v == BodyVerdict(cfg, old(Enclosing()), old(Room()), stmts)
      ensures v.Done? ==> Valid() && Appended(BodyOps(cfg, Enclosing(), stmts, old(|kids|)),
        BodyKids(cfg, Enclosing(), stmts))
      decreases stmts, 0
    {
      hide BodyOps, BodyKids, BodyVerdict, StmtOps, StmtKids, StmtVerdict, FactsOf;
      ghost var scope, room := Enclosing(), Room();
      var n := 0;
      assert stmts[0..] == stmts;
      while n < |stmts|
        invariant n <= |stmts| && Valid()
        invariant blockParams == old(blockParams) && Enclosing() == scope
        invariant bps.i == old(bps.i) && sns.i == old(sns.i)
        invariant ops + BodyOps(cfg, scope, stmts[n..], |kids|) == old(ops) + BodyOps(cfg, scope, stmts, old(|kids|))
        invariant kids + BodyKids(cfg, scope, stmts[n..]) == old(kids) + BodyKids(cfg, scope, stmts)
        invariant BodyVerdict(cfg, scope, room, stmts) == BodyVerdict(cfg, scope, room, stmts[n..])
      {
        BodyStep(cfg, scope, room, stmts, n, ops, kids);
        v := AcceptStatement(stmts[n]);
        if !v.Done? { return; }
        n := n + 1;
      }
      BodyEnd(cfg, scope, room, stmts[n..], |kids|);
      assert ops + [] == ops && kids + [] == kids;
      v := Done;
    }

    /**
     handlebars_compiler_compile_program: a sub-compiler on the same stacks; its number is its place among the
     children.
     */
    method CompileChild(p: Option<Program>) returns (v: Verdict, g: Option<nat>)
      requires Valid()
      modifies this, bps`i, bps.s, sns
      ensures v == OptionalVerdict(cfg, old(Enclosing()), old(Room()), p)
      ensures v.Done? ==> Valid() && Appended([], OptionalKid(cfg, Enclosing(), p)) && g == Guid(p, old(|kids|))
      decreases p, 2
    {
      hide ProgramVerdict, CompileProgram, FactsOf;
      if p.None? {
        return Done, None;
      }
      var kid;
      g := None;
      v, kid := CompileNested(p.value);
      if !v.Done? { return; }
      g := Some(guid);
      guid := guid + 1;
      Adopt(kid);
    }

    method CompileNested(p: Program) returns (v: Verdict, kid: Prog)
      requires Valid()
      modifies bps`i, bps.s, sns
      ensures v == ProgramVerdict(cfg, old(Enclosing()), old(Room()), p)
      ensures v.Done? ==> bps.i == old(bps.i) && sns.i == old(sns.i) && Enclosing() == old(Enclosing())
      ensures v.Done? ==> kid == CompileProgram(cfg, Enclosing(), p)
      decreases p, 1
    {
      hide BodyVerdict, BodyOps, BodyKids, FactsOf;
      var sub := new Compiler(cfg, bps, sns);
      kid := Prog([], [], NO_FACTS, 0);
      v := sns.Push();
      if !v.Done? { return; }
      v := sub.AcceptProgram(p);
      if !v.Done? { return; }
      sns.Pop();
      kid := Prog(sub.ops, sub.kids, sub.facts, sub.blockParams);
      assert sub.ops == BodyOps(cfg, Inner(Enclosing(), p), p.stmts, 0);
      assert sub.kids == BodyKids(cfg, Inner(Enclosing(), p), p.stmts);
    }

    method CompileContent(content: string) returns (v: Verdict, g: nat)
      requires Valid()
      modifies this, sns
      ensures v == PathVerdict(old(Room()))
      ensures v.Done? ==> Valid() && Appended([], [RawKid(content)]) && g == old(|kids|)
    {
      hide FactsOf;
      var sub := new Compiler(cfg, bps, sns);
      g := guid;
      v := sns.Push();
      if !v.Done? { return; }
      sub.AcceptContent(content);
      sns.Pop();
      assert sub.ops == ContentOps(content);
      ContentFacts(content);
      guid := guid + 1;
      Adopt(Prog(sub.ops, sub.kids, sub.facts, sub.blockParams));
    }

    /** Appends a child; its result flags except the use of decorators become the parent's. */
    method Adopt(kid: Prog)
      requires guid == |kids| + 1 && facts == FactsOf(ops, kids)
      modifies this`kids, this`facts
      ensures kids == old(kids) + [kid] && facts == FactsOf(ops, kids)
    {
      FactsOfConcat(ops, [], kids, [kid]);
      assert ops + [] == ops;
      assert [kid][0] == kid;
      facts := Or(facts, kid.facts.(useDecorators := false));
      kids := kids + [kid];
    }
  }

  /**
   handlebars_compiler_compile_ex on a fresh compiler. There is a program exactly if nothing in the template is
   wrong and its nodes find room; otherwise the verdict says what went wrong first.
   */
  method Compile(cfg: Config, p: Program) returns (v: Verdict, r: Option<Prog>)
    ensures v == ProgramVerdict(cfg, [], STACK_SIZE, p)
    ensures r == if v.Done? then Some(CompileProgram(cfg, [], p)) else None
    ensures r.Some? <==> ProgramCompiles(cfg, [], p) && ProgramNodes(cfg, [], p) <= STACK_SIZE
    ensures v.Overrun? ==> ProgramNodes(cfg, [], p) > STACK_SIZE
    ensures v.Thrown? ==> !ProgramCompiles(cfg, [], p)
  {
    hide ProgramVerdict, ProgramCompiles, ProgramNodes, CompileProgram, FactsOf;
    ProgramExact(cfg, [], STACK_SIZE, p);
    var bps := new BlockParamStack();
    var sns := new SourceNodeStack();
    var compiler := new Compiler(cfg, bps, sns);
    assert compiler.Enclosing() == [];
    var prog;
    v, prog := compiler.CompileNested(p);
    r := if v.Done? then Some(prog) else None;
  }

  lemma InnerPrefix(scope: Scope, p: Program)
    ensures |Inner(scope, p)| == |scope| + 1 && Inner(scope, p)[..|scope|] == scope
  {
  }

  lemma ContentFacts(content: string)
    ensures FactsOf(ContentOps(content), []) == NO_FACTS
  {
  }

  /** Compiling statement n of stmts leaves the rest of stmts to compile. */
  lemma BodyStep(cfg: Config, scope: Scope, room: nat, stmts: seq<Stmt>, n: nat, ops: seq<Op>, kids: seq<Prog>)
    requires n < |stmts|
    ensures var k := StmtKids(cfg, scope, stmts[n]);
      && ops + BodyOps(cfg, scope, stmts[n..], |kids|)
        == ops + StmtOps(cfg, scope, stmts[n], |kids|) + BodyOps(cfg, scope, stmts[n + 1..], |kids + k|)
      && kids + BodyKids(cfg, scope, stmts[n..]) == kids + k + BodyKids(cfg, scope, stmts[n + 1..])
    ensures BodyVerdict(cfg, scope, room, stmts[n..]) ==
      Then(StmtVerdict(cfg, scope, room, stmts[n]), BodyVerdict(cfg, scope, room, stmts[n + 1..]))
  {
    hide StmtOps, StmtKids, StmtVerdict;
    assert stmts[n..][0] == stmts[n] && stmts[n..][1..] == stmts[n + 1..];
    AppendAssoc(ops, StmtOps(cfg, scope, stmts[n], |kids|),
      BodyOps(cfg, scope, stmts[n + 1..], |kids| + KidCount(stmts[n])));
  }

  lemma BodyEnd(cfg: Config, scope: Scope, room: nat, stmts: seq<Stmt>, base: nat)
    requires stmts == []
    ensures BodyOps(cfg, scope, stmts, base) == [] && BodyKids(cfg, scope, stmts) == []
      && BodyVerdict(cfg, scope, room, stmts) == Done
  {
  }

  lemma AppendFour(a: seq<Op>, b: seq<Op>, c: seq<Op>, d: seq<Op>, e: seq<Op>)
    ensures a + b + c + d + e == a + (b + c + d + e)
  {
  }

  lemma AppendAssoc(a: seq<Op>, b: seq<Op>, c: seq<Op>)
    ensures a + b + c == a + (b + c)
  {
  }
}

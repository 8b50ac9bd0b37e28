/** The syntax tree the compiler walks (src/handlebars_ast.h) and the questions it asks about paths. */
module Ast {
  import opened Options

  /**
   A path: its ordinary segments, its text, how many parents up it starts, and whether it began with @.
   A path without segments is this, a dot or a run of double dots.
   */
  datatype Path = Path(parts: seq<string>, original: string, depth: nat, data: bool)

  datatype Literal =
    | StrLit(val: string) | NumLit(val: string) | BoolLit(val: string)
    | UndefLit(val: string) | NullLit(val: string)

  /** What stands in front of parameters: the grammar's helper_name. */
  datatype Head = Name(path: Path) | Constant(lit: Literal)

  datatype HashPair = HashPair(key: string, value: Expr)

  datatype Hash = NoHash | Hash(pairs: seq<HashPair>)

  datatype Args = Args(params: seq<Expr>, hash: Hash)

  datatype CallExpr = CallExpr(head: Head, args: Args)

  datatype Expr = PathExpr(path: Path) | LitExpr(lit: Literal) | SubExpr(call: CallExpr)

  datatype Program = Program(stmts: seq<Stmt>, param1: Option<string>, param2: Option<string>)

  /** The name of a partial: a helper_name, or a subexpression that computes it. */
  datatype PartialName = Static(head: Head) | Dynamic(call: CallExpr)

  datatype Stmt =
    | Content(val: string)
    | Comment
    | Mustache(call: CallExpr, unescaped: bool, decorator: bool)
    | Block(call: CallExpr, program: Option<Program>, inverse: Option<Program>, decorator: bool, text: string)
    | RawBlock(call: CallExpr, content: string)
    | Partial(name: PartialName, args: Args, program: Option<Program>, indent: string)

  /** The path an omitted partial context stands for: an empty node, which means this. */
  const IMPLICIT_CONTEXT: Path := Path([], "", 0, false)

  /** handlebars_compiler_transform_literal_to_path: a literal in head position is a one-segment name. */
  function HeadPath(h: Head): Path {
    match h
    case Name(p) => p
    case Constant(l) => Path([l.val], l.val, 0, false)
  }

  /** The character after the first "this" in s, 0 at the end of s; None if there is no "this". */
  function AfterThis(s: string): Option<int> {
    if |s| < 4 then None
    else if s[..4] == "this" then Some(if |s| == 4 then 0 else s[4] as int)
    else AfterThis(s[1..])
  }

  /** handlebars_ast_helper_scoped_id: it looks for "this" anywhere in the text, not only in front. */
  predicate ScopedId(p: Path) {
    var s := p.original;
    if |s| >= 1 && s[0] == '.' then true
    else if |s| == 4 && s == "this" then true
    else if |s| > 4 then
      match AfterThis(s)
      case None => false
      case Some(c) =>
        c < '0' as int || ('9' as int < c < 'A' as int) || ('Z' as int < c < '_' as int)
          || ('_' as int < c < 'a' as int) || c > 'z' as int
    else false
  }

  predicate SimpleId(p: Path) {
    |p.parts| == 1 && !ScopedId(p) && p.depth == 0
  }

  predicate HasArguments(call: CallExpr) {
    call.args.hash.Hash? || call.args.params != []
  }
}

/**
 The part of the scanner that reads expressions (src/handlebars.l), as far as paths, keys and constants without
 quotes go. The text is taken to stand in front of a blank or a closing delimiter; a character that begins none of
 the tokens below is Invalid, and quoted strings and closing delimiters inside a text are not told apart from that.
 */
module Lexer {
  import opened Options

  datatype Token =
    | OpenSexpr | CloseSexpr | DataSign | Equals
    | Id(id: string) | Sep(sep: string)
    | Str(s: string) | Num(n: string) | Bool(b: string) | Undefined | Null
    | Invalid

  predicate IsBlank(c: char) {
    c == ' ' || c == '\r' || c == '\n' || c == '\t'
  }

  /** IDC */
  predicate NameChar(c: char) {
    && !IsBlank(c) && c != '!' && c != '"' && c != '#' && !('%' <= c <= ',') && c != '.' && c != '/'
    && !(';' <= c <= '>') && c != '@' && !('[' <= c <= '^') && c != '`' && !('{' <= c <= '~')
  }

  /** LOOKAHEAD */
  predicate Lookahead(c: char) {
    IsBlank(c) || c == '=' || c == '~' || c == '}' || c == '/' || c == '.' || c == ')' || c == '|'
  }

  /** LITERAL_LOOKAHEAD */
  predicate LiteralLookahead(c: char) {
    IsBlank(c) || c == '~' || c == '}' || c == ')'
  }

  /** How many name characters s begins with. */
  function Run(s: string): (n: nat)
    ensures n <= |s| && forall k :: 0 <= k < n ==> NameChar(s[k])
    ensures n < |s| ==> !NameChar(s[n])
  {
    if s != "" && NameChar(s[0]) then 1 + Run(s[1..]) else 0
  }

  function Digits(s: string): (n: nat)
    ensures n <= |s| && forall k :: 0 <= k < n ==> '0' <= s[k] <= '9'
    ensures n < |s| ==> !('0' <= s[n] <= '9')
  {
    if s != "" && '0' <= s[0] <= '9' then 1 + Digits(s[1..]) else 0
  }

  /** How long the number is that s begins with; 0 if there is none. */
  function NumberLength(s: string): (n: nat)
    ensures n <= |s|
  {
    var sign := if s != "" && s[0] == '-' then 1 else 0;
    var whole := Digits(s[sign..]);
    var end := sign + whole;
    if whole == 0 then 0
    else if end < |s| && s[end] == '.' && Digits(s[end + 1..]) > 0 then end + 1 + Digits(s[end + 1..])
    else end
  }

  predicate Begins(s: string, word: string) {
    |word| <= |s| && s[..|word|] == word
  }

  /** A constant ends where the text does or in front of a blank or a closing delimiter. */
  predicate ConstantEnds(s: string, n: nat)
    requires n <= |s|
  {
    n == |s| || LiteralLookahead(s[n])
  }

  /** The constant s begins with, and its length. */
  function ConstantAt(s: string): (r: Option<(Token, nat)>)
    ensures r.Some? ==> 0 < r.value.1 <= |s| && !r.value.0.Id? && !r.value.0.Sep?
  {
    if Begins(s, "true") && ConstantEnds(s, 4) then Some((Bool("true"), 4))
    else if Begins(s, "false") && ConstantEnds(s, 5) then Some((Bool("false"), 5))
    else if Begins(s, "undefined") && ConstantEnds(s, 9) then Some((Undefined, 9))
    else if Begins(s, "null") && ConstantEnds(s, 4) then Some((Null, 4))
    else
      var n := NumberLength(s);
      if n > 0 && ConstantEnds(s, n) then Some((Num(s[..n]), n)) else None
  }

  /** Where the bracketed name that s begins with ends: behind the first ] without a backslash, or else the last ]. */
  function BracketEnd(s: string, n: nat, last: nat): (end: nat)
    requires 1 <= n <= |s| && (last == 0 || (2 <= last <= n && s[last - 1] == ']'))
    ensures end == 0 || (2 <= end <= |s| && s[end - 1] == ']')
    decreases |s| - n
  {
    if n == |s| then last
    else if s[n] != ']' then BracketEnd(s, n + 1, last)
    else if s[n - 1] == '\\' then BracketEnd(s, n + 1, n + 1)
    else n + 1
  }

  /** handlebars_str_reduce: every \] becomes ]. */
  function Reduce(s: string): (r: string)
    ensures |r| <= |s|
  {
    if |s| < 2 then s
    else if s[0] == '\\' && s[1] == ']' then [']'] + Reduce(s[2..])
    else [s[0]] + Reduce(s[1..])
  }

  function Lex(s: string): seq<Token> {
    if s == "" then []
    else if IsBlank(s[0]) then Lex(s[1..])
    else
      var (token, n) := Next(s);
      [token] + Lex(s[n..])
  }

  /** The token s begins with, and its length. */
  function Next(s: string): (r: (Token, nat))
    requires s != ""
    ensures 0 < r.1 <= |s|
  {
    if s[0] == '.' then
      if |s| >= 2 && s[1] == '.' then (Id(".."), 2)
      else if |s| == 1 || Lookahead(s[1]) then (Id("."), 1)
      else (Sep("."), 1)
    else if s[0] == '/' then (Sep("/"), 1)
    else if s[0] == '@' then (DataSign, 1)
    else if s[0] == '=' then (Equals, 1)
    else if s[0] == '(' then (OpenSexpr, 1)
    else if s[0] == ')' then (CloseSexpr, 1)
    else if s[0] == '[' then
      var n := BracketEnd(s, 1, 0);
      if n > 0 then (Id(Reduce(s[..n])), n) else (Invalid, 1)
    else match ConstantAt(s)
      case Some(constant) => constant
      case None =>
        var n := Run(s);
        if n > 0 && (n == |s| || Lookahead(s[n])) then (Id(s[..n]), n) else (Invalid, 1)
  }
}

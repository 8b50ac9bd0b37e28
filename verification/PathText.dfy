/**
 Paths as text: how the parser makes a path of its text (path_segments in src/handlebars.y), and when the text
 the printer keeps for a path is read as that path again.
 */
module PathText {
  import opened Options
  import opened Ast
  import opened Segments
  import opened Lexer

  /** One segment of a path as written: the separator in front of it, empty for the first, and its text. */
  datatype Word = Word(sep: string, text: string)

  /** handlebars_ast_helper_strip_id_literal */
  function Strip(s: string): (r: string)
    ensures |r| <= |s|
  {
    if |s| >= 2 && s[0] == '[' && s[|s| - 1] == ']' then s[1..|s| - 1] else s
  }

  function SegOf(w: Word): Seg {
    Seg(Some(Strip(w.text)), Strip(w.text) != w.text, if w.sep == "" then None else Some(w.sep))
  }

  function SegsOf(ws: seq<Word>): (r: seq<Seg>)
    ensures |r| == |ws| && forall n :: 0 <= n < |ws| ==> r[n] == SegOf(ws[n])
  {
    seq(|ws|, n requires 0 <= n < |ws| => SegOf(ws[n]))
  }

  /** path_segments after the first ID. */
  function ParseWords(ts: seq<Token>): (r: (seq<Word>, seq<Token>))
    ensures |r.1| <= |ts|
  {
    if |ts| >= 2 && ts[0].Sep? && ts[1].Id? then
      var (ws, rest) := ParseWords(ts[2..]);
      ([Word(ts[0].sep, ts[1].id)] + ws, rest)
    else ([], ts)
  }

  /** path_segments, if that is all there is. */
  function WordsIn(ts: seq<Token>): Option<seq<Word>> {
    if ts != [] && ts[0].Id? then
      var (ws, rest) := ParseWords(ts[1..]);
      if rest == [] then Some([Word("", ts[0].id)] + ws) else None
    else None
  }

  function WordTokens(ws: seq<Word>): seq<Token> {
    if ws == [] then []
    else (if ws[0].sep == "" then [] else [Sep(ws[0].sep)]) + [Id(ws[0].text)] + WordTokens(ws[1..])
  }

  /** The path a text stands for: path, or data_name without its sign. */
  function ReadPath(s: string, data: bool): Option<Path> {
    match WordsIn(Lex(s))
    case None => None
    case Some(ws) => Build(SegsOf(ws), data)
  }

  /** What the printer writes for a path, without the sign in front of a data path. */
  function PrintPath(p: Path): string {
    if p.data && p.original != "" then p.original[1..] else p.original
  }

  // ---- which paths can be read back

  predicate IsDotWord(t: string) {
    t == "." || t == ".." || t == "this"
  }

  predicate IsName(t: string) {
    t != "" && t != "this" && forall k :: 0 <= k < |t| ==> NameChar(t[k])
  }

  /** A dot, and then a dot as separator: nothing between them would tell them from a double dot. */
  predicate DotsMeet(ws: seq<Word>) {
    exists n :: 1 <= n < |ws| && MeetsAt(ws, n)
  }

  predicate MeetsAt(ws: seq<Word>, n: nat)
    requires 1 <= n < |ws|
  {
    ws[n - 1].text == "." && ws[n].sep == "."
  }

  /** Standing alone, the text is a constant. */
  predicate Reserved(t: string) {
    ConstantAt(t).Some?
  }

  /** Every bracketed segment could have been written without brackets. */
  predicate NoneNeedsBrackets(ws: seq<Word>) {
    forall n :: 0 <= n < |ws| ==> IsDotWord(ws[n].text) || IsName(Strip(ws[n].text))
  }

  /** And the last segment is no constant, and no separate dots come together. */
  predicate Printable(ws: seq<Word>) {
    && NoneNeedsBrackets(ws)
    && (ws != [] ==> !Reserved(Strip(ws[|ws| - 1].text)))
    && !DotsMeet(ws)
  }

  // ---- what the scanner makes of any text

  predicate IsBracketed(t: string) {
    |t| >= 2 && t[0] == '[' && t[|t| - 1] == ']'
  }

  /** The texts an ID can have. */
  predicate IdText(t: string) {
    IsDotWord(t) || IsName(t) || IsBracketed(t)
  }

  /** A word behind another one: a dot as separator has a name or a bracket right behind it. */
  predicate Follows(w: Word) {
    (w.sep == "." || w.sep == "/") && IdText(w.text) && (w.sep == "." ==> w.text[0] != '.')
  }

  predicate Tail(ws: seq<Word>) {
    forall n :: 0 <= n < |ws| ==> Follows(ws[n])
  }

  predicate WellSpaced(ws: seq<Word>) {
    ws != [] && ws[0].sep == "" && IdText(ws[0].text) && Tail(ws[1..])
  }

  predicate SpacedAt(ts: seq<Token>, n: nat)
    requires n < |ts|
  {
    && (ts[n].Id? ==> IdText(ts[n].id))
    && (ts[n].Sep? ==> ts[n].sep == "." || ts[n].sep == "/")
    && (ts[n] == Sep(".") && n + 1 < |ts| && ts[n + 1].Id? ==> IdText(ts[n + 1].id) && ts[n + 1].id[0] != '.')
  }

  predicate Spaced(ts: seq<Token>) {
    forall n :: 0 <= n < |ts| ==> SpacedAt(ts, n)
  }

  lemma {:induction false} ReduceLast(s: string)
    requires s != "" && s[|s| - 1] == ']'
    ensures Reduce(s) != "" && Reduce(s)[|Reduce(s)| - 1] == ']'
  {
    if |s| >= 2 {
      if s[0] == '\\' && s[1] == ']' {
        if |s| > 2 { ReduceLast(s[2..]); }
      } else {
        ReduceLast(s[1..]);
      }
    }
  }

  lemma NextIsSpaced(s: string)
    requires s != ""
    ensures var token := Next(s).0;
      && (token.Id? ==> IdText(token.id) && (token.id[0] == '.' <==> s[0] == '.'))
      && (token.Sep? ==> token.sep == "." || token.sep == "/")
      && (token == Sep(".") ==> Next(s).1 == 1 && |s| >= 2 && s[1] != '.' && !IsBlank(s[1]))
  {
    if s[0] == '[' {
      var n := BracketEnd(s, 1, 0);
      if n > 0 {
        ReduceLast(s[..n][1..]);
        assert Reduce(s[..n]) == ['['] + Reduce(s[..n][1..]);
      }
    }
  }

  lemma {:induction false} LexIsSpaced(s: string)
    ensures Spaced(Lex(s))
    decreases |s|
  {
    hide Next;
    if s != "" && IsBlank(s[0]) {
      LexIsSpaced(s[1..]);
    } else if s != "" {
      var (token, n) := Next(s);
      LexIsSpaced(s[n..]);
      NextIsSpaced(s);
      var more := Lex(s[n..]);
      if token == Sep(".") {
        NextIsSpaced(s[1..]);
        assert more[0] == Next(s[1..]).0;
      }
      SpacedCons(token, more);
    }
  }

  lemma SpacedCons(token: Token, more: seq<Token>)
    requires Spaced(more) && SpacedAt([token] + more, 0)
    ensures Spaced([token] + more)
  {
    var ts := [token] + more;
    forall n | 0 <= n < |ts| ensures SpacedAt(ts, n) {
      if n > 0 { assert SpacedAt(more, n - 1); }
    }
  }

  lemma {:induction false} ParseIsTail(ts: seq<Token>)
    requires Spaced(ts)
    ensures Tail(ParseWords(ts).0)
  {
    if |ts| >= 2 && ts[0].Sep? && ts[1].Id? {
      assert SpacedAt(ts, 0) && SpacedAt(ts, 1);
      forall n | 0 <= n < |ts[2..]| ensures SpacedAt(ts[2..], n) {
        assert SpacedAt(ts, n + 2);
      }
      ParseIsTail(ts[2..]);
    }
  }

  lemma WordsAreSpaced(s: string)
    ensures WordsIn(Lex(s)).Some? ==> WellSpaced(WordsIn(Lex(s)).value)
  {
    var ts := Lex(s);
    LexIsSpaced(s);
    if ts != [] && ts[0].Id? {
      assert SpacedAt(ts, 0);
      forall n | 0 <= n < |ts[1..]| ensures SpacedAt(ts[1..], n) {
        assert SpacedAt(ts, n + 1);
      }
      ParseIsTail(ts[1..]);
      var ws := ParseWords(ts[1..]).0;
      assert ([Word("", ts[0].id)] + ws)[1..] == ws;
    }
  }

  // ---- scanning words that need no brackets

  /** The words as they are printed: brackets are gone. */
  function Plain(ws: seq<Word>): (r: seq<Word>)
    ensures |r| == |ws| && forall n :: 0 <= n < |ws| ==> r[n] == Word(ws[n].sep, Strip(ws[n].text))
  {
    seq(|ws|, n requires 0 <= n < |ws| => Word(ws[n].sep, Strip(ws[n].text)))
  }

  function Spell(ws: seq<Word>): string {
    if ws == [] then "" else ws[0].sep + ws[0].text + Spell(ws[1..])
  }

  /** No word has brackets. */
  predicate Bare(ws: seq<Word>) {
    forall n :: 0 <= n < |ws| ==> IsDotWord(ws[n].text) || IsName(ws[n].text)
  }

  /** These are the tokens of the words of a tail, and nothing else. */
  predicate AllWords(ts: seq<Token>) {
    ParseWords(ts).1 == []
  }

  lemma {:induction false} ParseWordTokens(ws: seq<Word>)
    requires forall n :: 0 <= n < |ws| ==> ws[n].sep != ""
    ensures ParseWords(WordTokens(ws)) == (ws, [])
  {
    if ws != [] {
      ParseWordTokens(ws[1..]);
      assert WordTokens(ws)[2..] == WordTokens(ws[1..]);
      assert [Word(ws[0].sep, ws[0].text)] + ws[1..] == ws;
    }
  }

  /** What stands behind a word: nothing, or a separator. */
  lemma SpellStart(ws: seq<Word>)
    requires Tail(ws)
    ensures if ws == [] then Spell(ws) == "" else Spell(ws) != "" && [Spell(ws)[0]] == ws[0].sep
    ensures ws != [] ==> Spell(ws)[1..] == ws[0].text + Spell(ws[1..])
  {
    if ws != [] {
      assert Follows(ws[0]);
      var more := ws[0].text + Spell(ws[1..]);
      assert Spell(ws) == ws[0].sep + more;
    }
  }

  lemma {:induction false} SpellChars(ws: seq<Word>)
    requires Bare(ws) && Tail(ws)
    ensures forall k :: 0 <= k < |Spell(ws)| ==> NameChar(Spell(ws)[k]) || Spell(ws)[k] == '.' || Spell(ws)[k] == '/'
  {
    if ws != [] {
      assert Follows(ws[0]);
      SpellChars(ws[1..]);
    }
  }

  lemma {:induction false} RunIs(t: string, rest: string)
    requires forall k :: 0 <= k < |t| ==> NameChar(t[k])
    requires rest == "" || !NameChar(rest[0])
    ensures Run(t + rest) == |t|
  {
    if t == "" {
      assert t + rest == rest;
    } else {
      assert (t + rest)[1..] == t[1..] + rest;
      RunIs(t[1..], rest);
    }
  }

  lemma {:induction false} AllDigits(s: string)
    requires forall k :: 0 <= k < |s| ==> '0' <= s[k] <= '9'
    ensures Digits(s) == |s|
  {
    if s != "" { AllDigits(s[1..]); }
  }

  predicate NameRun(t: string) {
    t != "" && forall k :: 0 <= k < |t| ==> NameChar(t[k])
  }

  lemma ConstantShape(s: string)
    requires ConstantAt(s).Some? && forall k :: 0 <= k < |s| ==> !LiteralLookahead(s[k])
    ensures s in ["true", "false", "undefined", "null"] || NumberLength(s) == |s|
  {
    hide NumberLength;
    var n := ConstantAt(s).value.1;
    assert ConstantEnds(s, n);
    assert s[..n] == s;
  }

  lemma NumberIsConstant(s: string)
    requires NumberLength(s) == |s| && s != ""
    ensures Reserved(s)
  {
    hide NumberLength;
  }

  /** Behind the first character of a number that no name has, there are only digits. */
  lemma NumberSpan(s: string, n: nat)
    requires NumberLength(s) == |s| && n < |s| && (s[n] == '.' || s[n] == '/')
    ensures n + 1 < |s| && forall k :: n < k < |s| ==> '0' <= s[k] <= '9'
  {
    var sign := if s[0] == '-' then 1 else 0;
    var end := sign + Digits(s[sign..]);
    assert forall k :: sign <= k < end ==> s[k] == s[sign..][k - sign];
    if end < |s| {
      assert s[end] == '.';
      assert forall k :: end < k < |s| ==> s[k] == s[end + 1..][k - end - 1];
      assert n == end;
    }
  }

  lemma KeywordsAreRuns(s: string)
    requires s in ["true", "false", "undefined", "null"]
    ensures NameRun(s)
  {
  }

  /** Only names, dots and slashes: nothing inside can end a constant. */
  lemma PathChars(t: string, tail: seq<Word>)
    requires NameRun(t) && Bare(tail) && Tail(tail)
    ensures var s := t + Spell(tail); forall k :: 0 <= k < |s| ==> !LiteralLookahead(s[k])
  {
    hide Spell, Bare, Tail;
    SpellChars(tail);
    var s := t + Spell(tail);
    forall k | 0 <= k < |s| ensures !LiteralLookahead(s[k]) {
      assert s[k] == if k < |t| then t[k] else Spell(tail)[k - |t|];
    }
  }

  /** A constant that begins with a word reaches to the end of the path, so its last word is one. */
  lemma ConstantIsLast(t: string, tail: seq<Word>)
    requires NameRun(t) && Bare(tail) && Tail(tail)
    requires ConstantAt(t + Spell(tail)).Some?
    ensures Reserved(if tail == [] then t else tail[|tail| - 1].text)
  {
    hide ConstantAt, Bare, NumberLength, NameRun, Spell, Tail;
    var rest := Spell(tail);
    var s := t + rest;
    PathChars(t, tail);
    ConstantShape(s);
    SpellStart(tail);
    if tail == [] {
      assert s == t;
    } else {
      assert s[|t|] == rest[0];
      SepIsChar(tail);
      if s in ["true", "false", "undefined", "null"] { KeywordsAreRuns(s); NotARun(s, |t|); }
      NumberSpan(s, |t|);
      assert forall k :: 0 < k < |rest| ==> rest[k] == s[|t| + k];
      DigitsAreLast(tail);
    }
  }

  lemma NotARun(s: string, n: nat)
    requires n < |s| && (s[n] == '.' || s[n] == '/')
    ensures !NameRun(s)
  {
    assert !NameChar(s[n]);
  }

  lemma SepIsChar(tail: seq<Word>)
    requires Tail(tail) && tail != []
    ensures Follows(tail[0]) && (tail[0].sep == "." || tail[0].sep == "/")
  {
  }

  /** A tail of nothing but digits is one word. */
  lemma DigitsAreLast(tail: seq<Word>)
    requires Tail(tail) && tail != [] && |Spell(tail)| > 1
    requires forall k :: 1 <= k < |Spell(tail)| ==> '0' <= Spell(tail)[k] <= '9'
    ensures Reserved(tail[|tail| - 1].text)
  {
    hide Spell, Reserved;
    var text, more := tail[0].text, tail[1..];
    SpellStart(tail);
    assert Tail(more);
    SpellStart(more);
    var s := Spell(tail)[1..];
    assert forall k :: 0 <= k < |s| ==> s[k] == Spell(tail)[k + 1];
    if more != [] { Joint(text, more); }
    assert s == text;
    AllDigitsAreNumber(text);
  }

  /** Between two words stands a separator. */
  lemma Joint(text: string, more: seq<Word>)
    requires Tail(more) && more != []
    ensures var s := text + Spell(more); |s| > |text| && (s[|text|] == '.' || s[|text|] == '/')
  {
    SpellStart(more);
    SepIsChar(more);
    assert (text + Spell(more))[|text|] == Spell(more)[0];
  }

  lemma AllDigitsAreNumber(s: string)
    requires s != "" && forall k :: 0 <= k < |s| ==> '0' <= s[k] <= '9'
    ensures Reserved(s)
  {
    hide Reserved;
    AllDigits(s);
    assert s[0..] == s;
    NumberIsConstant(s);
  }

  /** What may go wrong when words without brackets are read back. */
  predicate ReadsBack(ws: seq<Word>)
    requires ws != []
  {
    !Reserved(ws[|ws| - 1].text) && !DotsMeet(ws)
  }

  /** A word in front of a tail is one token, unless it begins a constant or is a dot that meets another. */
  lemma LexWord(t: string, tail: seq<Word>)
    requires (IsDotWord(t) || IsName(t)) && Bare(tail) && Tail(tail)
    ensures var s := t + Spell(tail);
      if NameRun(t) && ConstantAt(s).Some? then Lex(s) != [] && !Lex(s)[0].Id?
      else if t == "." && tail != [] && tail[0].sep == "." then
        Lex(s) == [Id("..")] + Lex(tail[0].text + Spell(tail[1..]))
      else Lex(s) == [Id(t)] + Lex(Spell(tail))
  {
    hide Spell, ConstantAt, Bare, Tail;
    var rest := Spell(tail);
    var s := t + rest;
    SpellStart(tail);
    if tail != [] { SepIsChar(tail); }
    if t == "." || t == ".." {
      LexDots(t, tail);
    } else {
      RunIs(t, rest);
      assert s[0] == t[0] && s[|t|..] == rest && s[..|t|] == t;
      assert rest != "" ==> s[|t|] == rest[0];
      if ConstantAt(s).None? {
        assert Next(s) == (Id(t), |t|);
      }
    }
  }

  lemma LexDots(t: string, tail: seq<Word>)
    requires t == "." || t == ".."
    requires Tail(tail)
    ensures var s := t + Spell(tail);
      if t == "." && tail != [] && tail[0].sep == "." then
        Lex(s) == [Id("..")] + Lex(tail[0].text + Spell(tail[1..]))
      else Lex(s) == [Id(t)] + Lex(Spell(tail))
  {
    hide Spell, Tail;
    var rest := Spell(tail);
    var s := t + rest;
    SpellStart(tail);
    if tail != [] { SepIsChar(tail); }
    assert s[|t|..] == rest;
    assert rest != "" ==> s[|t|] == rest[0];
    if t == "." && tail != [] && tail[0].sep == "." {
      assert s[2..] == rest[1..];
    }
  }

  /** The scanner takes a separator for one: behind a dot stands a name. */
  lemma LexSep(tail: seq<Word>)
    requires Bare(tail) && Tail(tail) && tail != []
    ensures Lex(Spell(tail)) == [Sep(tail[0].sep)] + Lex(tail[0].text + Spell(tail[1..]))
  {
    hide Spell;
    SpellStart(tail);
    var s, text := Spell(tail), tail[0].text;
    SepIsChar(tail);
    assert s[1..] == text + Spell(tail[1..]);
    assert text != "";
    assert s[1] == text[0];
  }

  /** A name is never read as a separator. */
  lemma NameIsNoSep(t: string, rest: string)
    requires NameRun(t)
    ensures Lex(t + rest) != [] && !Lex(t + rest)[0].Sep?
  {
    hide ConstantAt;
    assert (t + rest)[0] == t[0];
  }

  lemma DotsMeetTail(ws: seq<Word>)
    requires ws != []
    ensures DotsMeet(ws) <==> DotsMeet(ws[1..]) || (|ws| > 1 && ws[0].text == "." && ws[1].sep == ".")
  {
    if DotsMeet(ws[1..]) {
      var n :| 1 <= n < |ws[1..]| && MeetsAt(ws[1..], n);
      assert MeetsAt(ws, n + 1);
    }
    if |ws| > 1 && ws[0].text == "." && ws[1].sep == "." {
      assert MeetsAt(ws, 1);
    }
    if DotsMeet(ws) {
      var n :| 1 <= n < |ws| && MeetsAt(ws, n);
      if n > 1 { assert MeetsAt(ws[1..], n - 1); }
    }
  }

  /** Words without brackets are read back from their spelling if and only if nothing goes wrong. */
  lemma {:induction false} TailReadsBack(tail: seq<Word>)
    requires Bare(tail) && Tail(tail)
    ensures if tail == [] || ReadsBack(tail) then Lex(Spell(tail)) == WordTokens(tail) else !AllWords(Lex(Spell(tail)))
    decreases |tail|, 0
  {
    hide Lex, ReadsBack, AllWords, Bare, Tail, Spell, Follows;
    if tail == [] {
      NothingIsRead();
    } else {
      SepIsChar(tail);
      assert tail[0].sep != "";
      LexSep(tail);
      assert Tail(tail[1..]) by { LaterFollow(tail); }
      HeadReadsBack(tail);
      ParseStep(Sep(tail[0].sep), Lex(tail[0].text + Spell(tail[1..])));
    }
  }

  lemma NothingIsRead()
    ensures Lex(Spell([])) == WordTokens([])
  {
  }

  lemma LaterFollow(tail: seq<Word>)
    requires Tail(tail) && tail != []
    ensures Tail(tail[1..])
  {
  }

  /** A separator in front of tokens makes a tail of them if they are words. */
  lemma ParseStep(sep: Token, ts: seq<Token>)
    requires sep.Sep?
    ensures AllWords([sep] + ts) ==> ts != [] && ts[0].Id? && AllWords(ts[1..])
  {
    assert ts != [] ==> ([sep] + ts)[2..] == ts[1..];
  }

  /** The first word and what stands behind it. */
  lemma {:induction false} HeadReadsBack(ws: seq<Word>)
    requires ws != [] && Bare(ws) && Tail(ws[1..])
    ensures var ts := Lex(ws[0].text + Spell(ws[1..]));
      if ReadsBack(ws) then ts == [Id(ws[0].text)] + WordTokens(ws[1..])
      else ts == [] || !ts[0].Id? || !AllWords(ts[1..])
    decreases |ws| - 1, 1
  {
    hide ConstantAt, Bare, DotsMeet, Spell, Tail, Lex, WordTokens, IsName, Reserved, NameRun, AllWords;
    var t, tail := ws[0].text, ws[1..];
    BareParts(ws);
    var s := t + Spell(tail);
    LexWord(t, tail);
    DotsMeetTail(ws);
    if NameRun(t) && ConstantAt(s).Some? {
      ConstantIsLast(t, tail);
    } else if t == "." && tail != [] && tail[0].sep == "." {
      DotThenName(tail);
      assert Lex(s)[1..] == Lex(tail[0].text + Spell(tail[1..]));
    } else if tail == [] {
      NothingElse(t, s);
    } else {
      TailReadsBack(tail);
      assert Lex(s)[1..] == Lex(Spell(tail));
    }
  }

  lemma NothingElse(t: string, s: string)
    requires s == t + Spell([]) && t != "" && (t != "." && t != ".." ==> NameRun(t))
    requires !(NameRun(t) && ConstantAt(s).Some?)
    ensures !Reserved(t) && Lex(Spell([])) == WordTokens([]) && !DotsMeet([])
  {
    assert s == t;
  }

  lemma DotThenName(tail: seq<Word>)
    requires Bare(tail) && Tail(tail) && tail != [] && tail[0].sep == "."
    ensures !AllWords(Lex(tail[0].text + Spell(tail[1..])))
  {
    hide Lex, Spell;
    assert Follows(tail[0]);
    NameIsNoSep(tail[0].text, Spell(tail[1..]));
  }

  lemma BareParts(ws: seq<Word>)
    requires ws != [] && Bare(ws)
    ensures (IsDotWord(ws[0].text) || IsName(ws[0].text)) && Bare(ws[1..]) && ws[0].text != ""
    ensures NameRun(ws[0].text) <==> ws[0].text != "." && ws[0].text != ".."
  {
    DotsAreNoNames();
    assert NameRun("this");
  }

  lemma DotsAreNoNames()
    ensures !NameRun(".") && !NameRun("..")
  {
    NotARun(".", 0);
    NotARun("..", 0);
  }

  /** A path whose words have no brackets is read from its spelling exactly if nothing goes wrong. */
  lemma SpellingReadsBack(ws: seq<Word>)
    requires WellSpaced(ws) && Bare(ws)
    ensures ReadsBack(ws) ==> Lex(Spell(ws)) == WordTokens(ws)
    ensures WordsIn(Lex(Spell(ws))) == if ReadsBack(ws) then Some(ws) else None
  {
    hide Lex, ReadsBack, DotsMeet, Spell, Bare, ParseWords;
    HeadReadsBack(ws);
    assert Spell(ws) == ws[0].text + Spell(ws[1..]) by { FirstSpelled(ws); }
    if ReadsBack(ws) {
      assert forall n :: 0 <= n < |ws[1..]| ==> Follows(ws[1..][n]);
      ParseWordTokens(ws[1..]);
      assert [Word("", ws[0].text)] + ws[1..] == ws;
      assert ([Id(ws[0].text)] + WordTokens(ws[1..]))[1..] == WordTokens(ws[1..]);
      assert [] + [Id(ws[0].text)] == [Id(ws[0].text)];
    }
  }

  lemma FirstSpelled(ws: seq<Word>)
    requires ws != [] && ws[0].sep == ""
    ensures Spell(ws) == ws[0].text + Spell(ws[1..])
  {
    assert "" + ws[0].text == ws[0].text;
  }

  // ---- a text cannot be read as itself if there are brackets in it

  function Weight(ts: seq<Token>): nat {
    if ts == [] then 0
    else (match ts[0] case Id(t) => |Strip(t)| case Sep(t) => |t| case _ => 0) + Weight(ts[1..])
  }

  function WordsWeight(ws: seq<Word>): nat {
    if ws == [] then 0 else |ws[0].sep| + |Strip(ws[0].text)| + WordsWeight(ws[1..])
  }

  predicate NoBrackets(ts: seq<Token>) {
    forall n :: 0 <= n < |ts| && ts[n].Id? ==> !IsBracketed(ts[n].id)
  }

  lemma NextWeight(s: string)
    requires s != ""
    ensures var (token, n) := Next(s);
      && (token.Id? ==> |Strip(token.id)| <= n && (IsBracketed(token.id) ==> |Strip(token.id)| < n))
      && (token.Sep? ==> |token.sep| <= n)
  {
    NextIsSpaced(s);
  }

  /** Brackets are lost when a text is printed again; so are blanks. */
  lemma {:induction false} LexWeight(s: string)
    ensures Weight(Lex(s)) <= |s|
    ensures Weight(Lex(s)) == |s| ==> NoBrackets(Lex(s))
    decreases |s|
  {
    hide Next, Strip;
    if s != "" && IsBlank(s[0]) {
      LexWeight(s[1..]);
    } else if s != "" {
      var (token, n) := Next(s);
      LexWeight(s[n..]);
      NextWeight(s);
      var ts := Lex(s);
      assert ts == [token] + Lex(s[n..]) && ts[1..] == Lex(s[n..]);
      forall k | 0 <= k < |ts| && ts[k].Id? && Weight(ts) == |s| ensures !IsBracketed(ts[k].id) {
        if k > 0 { assert ts[k] == Lex(s[n..])[k - 1]; }
      }
    }
  }

  lemma {:induction false} ParseWeight(ts: seq<Token>)
    requires AllWords(ts)
    ensures WordsWeight(ParseWords(ts).0) == Weight(ts)
    ensures NoBrackets(ts) ==> forall n :: 0 <= n < |ParseWords(ts).0| ==> !IsBracketed(ParseWords(ts).0[n].text)
  {
    hide Strip;
    if |ts| >= 2 && ts[0].Sep? && ts[1].Id? {
      ParseWeight(ts[2..]);
      assert ts[1..][1..] == ts[2..];
      if NoBrackets(ts) {
        assert forall n :: 0 <= n < |ts[2..]| ==> ts[2..][n] == ts[n + 2];
        assert !IsBracketed(ts[1].id);
      }
    }
  }

  lemma WordsInWeight(ts: seq<Token>)
    requires WordsIn(ts).Some?
    ensures WordsWeight(WordsIn(ts).value) == Weight(ts)
    ensures NoBrackets(ts) ==> forall n :: 0 <= n < |WordsIn(ts).value| ==> !IsBracketed(WordsIn(ts).value[n].text)
  {
    hide Strip;
    var more := ParseWords(ts[1..]).0;
    ParseWeight(ts[1..]);
    assert ([Word("", ts[0].id)] + more)[1..] == more;
    if NoBrackets(ts) {
      assert forall n :: 0 <= n < |ts[1..]| ==> ts[1..][n] == ts[n + 1];
      assert !IsBracketed(ts[0].id);
    }
  }

  lemma {:induction false} SpellWeight(ws: seq<Word>)
    ensures |Spell(Plain(ws))| == WordsWeight(ws)
  {
    if ws != [] {
      SpellWeight(ws[1..]);
      assert Plain(ws)[1..] == Plain(ws[1..]);
    }
  }

  // ---- the text a path keeps

  lemma {:induction false} SpellAppend(ws: seq<Word>, w: Word)
    ensures Spell(ws + [w]) == Spell(ws) + (w.sep + w.text)
  {
    if ws == [] {
      assert ws + [w] == [w];
      assert [w][1..] == [];
      assert Spell([w]) == w.sep + w.text;
    } else {
      SpellAppend(ws[1..], w);
      assert (ws + [w])[1..] == ws[1..] + [w];
    }
  }

  /** The text of a path spells its words without brackets. */
  lemma {:induction false} TextsSpell(ws: seq<Word>)
    ensures Texts(SegsOf(ws)) == Spell(Plain(ws))
  {
    hide SegsOf, Plain, Spell, Strip, Texts, SegOf;
    if ws == [] {
      NothingSpelled();
    } else {
      var before, last := ws[..|ws| - 1], ws[|ws| - 1];
      assert ws == before + [last];
      TextsSpell(before);
      OneMoreWord(before, last);
      AppendedOne(SegsOf(before), SegOf(last));
      SpellAppend(Plain(before), Word(last.sep, Strip(last.text)));
      TextOfWord(last);
    }
  }

  lemma NothingSpelled()
    ensures Texts(SegsOf([])) == Spell(Plain([]))
  {
    assert SegsOf([]) == [] && Plain([]) == [];
  }

  lemma OneMoreWord(ws: seq<Word>, w: Word)
    ensures SegsOf(ws + [w]) == SegsOf(ws) + [SegOf(w)]
    ensures Plain(ws + [w]) == Plain(ws) + [Word(w.sep, Strip(w.text))]
  {
    hide SegOf, Strip;
  }

  lemma TextOfWord(w: Word)
    ensures SegOf(w).Text() == w.sep + Strip(w.text)
  {
    assert "" + Strip(w.text) == Strip(w.text);
  }

  /** The segments say the same, whether or not they were written in brackets. */
  predicate Alike(a: seq<Seg>, b: seq<Seg>) {
    |a| == |b| && forall n :: 0 <= n < |a| ==>
      a[n].part == b[n].part && a[n].separator == b[n].separator && a[n].IsDots() == b[n].IsDots()
  }

  lemma {:induction false} AlikeParts(a: seq<Seg>, b: seq<Seg>)
    requires Alike(a, b)
    ensures Names(a) == Names(b) && Parents(a) == Parents(b) && Texts(a) == Texts(b)
  {
    if a != [] {
      AlikeParts(a[..|a| - 1], b[..|b| - 1]);
    }
  }

  lemma AlikeBuild(a: seq<Seg>, b: seq<Seg>, data: bool)
    requires Alike(a, b)
    ensures Build(a, data) == Build(b, data)
  {
    hide Names, Parents, Texts;
    AlikeParts(a, b);
    assert Misplaced(a) == Misplaced(b) by {
      if Misplaced(a) {
        var i, j :| 0 <= i < j < |a| && a[i].IsOrdinary() && a[j].IsDots();
        assert b[i].IsOrdinary() && b[j].IsDots();
      }
      if Misplaced(b) {
        var i, j :| 0 <= i < j < |b| && b[i].IsOrdinary() && b[j].IsDots();
        assert a[i].IsOrdinary() && a[j].IsDots();
      }
    }
  }

  /** A word that is no dots is among the names of the path. */
  lemma {:induction false} NamesHave(s: seq<Seg>, n: nat)
    requires n < |s| && !s[n].IsDots()
    ensures s[n].part.GetOr("") in Names(s)
  {
    if n < |s| - 1 {
      assert s[..|s| - 1][n] == s[n];
      NamesHave(s[..|s| - 1], n);
    }
  }

  lemma {:induction false} NamesAre(s: seq<Seg>, x: string)
    requires x in Names(s)
    ensures exists n :: 0 <= n < |s| && !s[n].IsDots() && s[n].part.GetOr("") == x
  {
    var last := |s| - 1;
    if x in Names(s[..last]) {
      NamesAre(s[..last], x);
      var n :| 0 <= n < last && !s[..last][n].IsDots() && s[..last][n].part.GetOr("") == x;
      assert !s[n].IsDots() && s[n].part.GetOr("") == x;
    } else {
      assert !s[last].IsDots() && s[last].part.GetOr("") == x;
    }
  }

  // ---- reading back what was printed

  lemma PlainIsBare(ws: seq<Word>)
    requires WellSpaced(ws)
    requires NoneNeedsBrackets(ws)
    ensures WellSpaced(Plain(ws)) && Bare(Plain(ws)) && Alike(SegsOf(Plain(ws)), SegsOf(ws))
    ensures DotsMeet(Plain(ws)) == DotsMeet(ws)
  {
    var q := Plain(ws);
    DotsAreNoNames();
    forall n | 0 <= n < |ws|
      ensures IsDotWord(q[n].text) || IsName(q[n].text)
      ensures q[n].text == "." <==> ws[n].text == "."
      ensures SegOf(q[n]).IsDots() == SegOf(ws[n]).IsDots() && Strip(q[n].text) == q[n].text
      ensures n > 0 ==> Follows(q[n])
    {
      if n > 0 { assert ws[1..][n - 1] == ws[n]; }
    }
    assert forall n :: 0 <= n < |q[1..]| ==> q[1..][n] == q[n + 1];
    DotsMeetAlike(q, ws);
    DotsMeetAlike(ws, q);
  }

  lemma DotsMeetAlike(a: seq<Word>, b: seq<Word>)
    requires |a| == |b| && forall n :: 0 <= n < |a| ==> a[n].sep == b[n].sep && (a[n].text == "." <==> b[n].text == ".")
    ensures DotsMeet(a) ==> DotsMeet(b)
  {
    if DotsMeet(a) {
      var n :| 1 <= n < |a| && MeetsAt(a, n);
      assert MeetsAt(b, n);
    }
  }

  /** If a path is read from the text it keeps, none of its names needs brackets. */
  lemma NamesNeedNoBrackets(p: Path)
    requires ReadPath(PrintPath(p), p.data) == Some(p)
    ensures forall x :: x in p.parts ==> IsName(x)
  {
    hide Lex, WordsIn, Weight, WordsWeight, Spell, Strip, IsName, Texts, Misplaced, Parents, Names, WellSpaced,
      NoBrackets;
    var s := PrintPath(p);
    var ws := WordsIn(Lex(s)).value;
    WordsAreSpaced(s);
    LexWeight(s);
    WordsInWeight(Lex(s));
    PrintedSpells(s, p.data);
    SpellWeight(ws);
    BareNames(ws);
  }

  lemma BareNames(ws: seq<Word>)
    requires WellSpaced(ws) && forall n :: 0 <= n < |ws| ==> !IsBracketed(ws[n].text)
    ensures forall x :: x in Names(SegsOf(ws)) ==> IsName(x)
  {
    hide Names;
    forall x | x in Names(SegsOf(ws)) ensures IsName(x) {
      NamesAre(SegsOf(ws), x);
      var n :| 0 <= n < |ws| && !SegsOf(ws)[n].IsDots() && SegsOf(ws)[n].part.GetOr("") == x;
      assert IdText(ws[n].text) by { if n > 0 { assert Follows(ws[1..][n - 1]); } }
    }
  }

  /**
   The printer's text of a path is read as that path again if and only if none of its segments needed its brackets,
   the last one is no constant, and no two dots have come together.
   */
  lemma PathReadsBackExactly(s: string, data: bool)
    requires ReadPath(s, data).Some?
    ensures var p := ReadPath(s, data).value;
      ReadPath(PrintPath(p), data) == Some(p) <==> Printable(WordsIn(Lex(s)).value)
  {
    hide Lex, WordsIn, DotsMeet, Reserved, Strip, IsName, Misplaced, Names, Parents, Texts, Spell, WellSpaced, Plain,
      Bare;
    var ws, p := WordsIn(Lex(s)).value, ReadPath(s, data).value;
    WordsAreSpaced(s);
    PrintedSpells(s, data);
    if ReadPath(PrintPath(p), data) == Some(p) {
      NamesNeedNoBrackets(p);
      BracketsNeedNot(ws, p.parts);
    }
    if NoneNeedsBrackets(ws) {
      PlainReadsBack(ws, data);
    }
  }

  lemma BracketsNeedNot(ws: seq<Word>, names: seq<string>)
    requires names == Names(SegsOf(ws)) && forall x :: x in names ==> IsName(x)
    ensures NoneNeedsBrackets(ws)
  {
    forall n | 0 <= n < |ws| ensures IsDotWord(ws[n].text) || IsName(Strip(ws[n].text)) {
      if !SegsOf(ws)[n].IsDots() { NamesHave(SegsOf(ws), n); }
    }
  }

  lemma PrintedSpells(s: string, data: bool)
    requires ReadPath(s, data).Some?
    ensures PrintPath(ReadPath(s, data).value) == Spell(Plain(WordsIn(Lex(s)).value))
    ensures ReadPath(s, data).value.data == data
  {
    hide Lex, WordsIn, Spell;
    TextsSpell(WordsIn(Lex(s)).value);
  }

  lemma PlainReadsBack(ws: seq<Word>, data: bool)
    requires WellSpaced(ws) && NoneNeedsBrackets(ws)
    ensures ReadPath(Spell(Plain(ws)), data) == if Printable(ws) then Build(SegsOf(ws), data) else None
    ensures Printable(ws) ==> Lex(Spell(Plain(ws))) == WordTokens(Plain(ws))
    ensures WellSpaced(Plain(ws)) && Build(SegsOf(Plain(ws)), data) == Build(SegsOf(ws), data)
  {
    hide Lex, WordsIn, DotsMeet, Reserved, Strip, IsName, Build, Spell, Alike, WordTokens;
    PlainIsBare(ws);
    SpellingReadsBack(Plain(ws));
    AlikeBuild(SegsOf(Plain(ws)), SegsOf(ws), data);
  }

  // ---- paths without brackets

  predicate Blanks(s: string) {
    forall k :: 0 <= k < |s| ==> IsBlank(s[k])
  }

  lemma {:induction false} NoTokensMeansBlanks(s: string)
    ensures Lex(s) == [] ==> Blanks(s)
  {
    hide Next;
    if s != "" && IsBlank(s[0]) {
      NoTokensMeansBlanks(s[1..]);
      assert forall k :: 1 <= k < |s| ==> s[k] == s[1..][k - 1];
    }
  }

  /** What is a constant alone is one in front of a blank. */
  lemma ConstantBeforeBlank(t: string, rest: string)
    requires NameRun(t) && Reserved(t) && (rest == "" || IsBlank(rest[0]))
    ensures ConstantAt(t + rest).Some?
  {
    hide NumberLength;
    var s := t + rest;
    ConstantShape(t);
    assert ConstantEnds(s, |t|);
    assert s[..|t|] == t;
    if t !in ["true", "false", "undefined", "null"] {
      NumberBeforeBlank(t, rest);
    }
  }

  lemma {:induction false} DigitsBefore(t: string, rest: string)
    requires rest == "" || !('0' <= rest[0] <= '9')
    ensures Digits(t + rest) == Digits(t)
  {
    if t == "" {
      assert t + rest == rest;
    } else {
      assert (t + rest)[1..] == t[1..] + rest;
      DigitsBefore(t[1..], rest);
    }
  }

  lemma NumberBeforeBlank(t: string, rest: string)
    requires NameRun(t) && NumberLength(t) == |t| && (rest == "" || IsBlank(rest[0]))
    ensures NumberLength(t + rest) == |t|
  {
    hide Digits;
    var s := t + rest;
    var sign := if t[0] == '-' then 1 else 0;
    assert s[sign..] == t[sign..] + rest;
    DigitsBefore(t[sign..], rest);
    OneNumber(t, sign);
    assert |t| < |s| ==> s[|t|] == rest[0];
  }

  lemma OneNumber(t: string, sign: nat)
    requires NameRun(t) && NumberLength(t) == |t| && sign == if t[0] == '-' then 1 else 0
    ensures sign <= |t| && sign + Digits(t[sign..]) == |t|
  {
    hide Digits;
    assert forall k :: 0 <= k < |t| ==> NameChar(t[k]) && t[k] != '.';
  }

  /** The last word of a text is no constant, or the scanner would have taken it for one. */
  lemma {:induction false} LastIsNoConstant(s: string)
    ensures var ts := Lex(s);
      ts != [] && ts[|ts| - 1].Id? && NameRun(ts[|ts| - 1].id) ==> !Reserved(ts[|ts| - 1].id)
    decreases |s|
  {
    hide Next, Reserved;
    if s != "" && IsBlank(s[0]) {
      LastIsNoConstant(s[1..]);
    } else if s != "" {
      var (token, n) := Next(s);
      var more := Lex(s[n..]);
      assert Lex(s) == [token] + more;
      LastIsNoConstant(s[n..]);
      if more == [] && token.Id? && NameRun(token.id) && Reserved(token.id) {
        LastIsOne(s);
      }
    }
  }

  lemma LastIsOne(s: string)
    requires s != "" && Next(s).0.Id? && NameRun(Next(s).0.id) && Lex(s[Next(s).1..]) == []
    ensures !Reserved(Next(s).0.id)
  {
    hide Next, Reserved, Lex, NameRun;
    var (token, n) := Next(s);
    RunIsNext(s);
    assert s == token.id + s[n..];
    NoTokensMeansBlanks(s[n..]);
    if Reserved(token.id) { ConstantBeforeBlank(token.id, s[n..]); }
  }

  lemma RunIsNext(s: string)
    requires s != "" && Next(s).0.Id? && NameRun(Next(s).0.id)
    ensures ConstantAt(s).None? && Next(s).0.id == s[..Next(s).1]
  {
    DotsAreNoNames();
    if s[0] == '[' { BracketIsNoName(s); }
  }

  lemma BracketIsNoName(s: string)
    requires s != "" && s[0] == '['
    ensures Next(s).0.Id? ==> !NameRun(Next(s).0.id)
  {
    var n := BracketEnd(s, 1, 0);
    if n > 0 {
      var id := Reduce(s[..n]);
      assert id == ['['] + Reduce(s[..n][1..]);
      assert !NameChar(id[0]);
    }
  }

  lemma {:induction false} LastToken(ts: seq<Token>)
    requires AllWords(ts) && ts != []
    ensures var ws := ParseWords(ts).0; ws != [] && ts[|ts| - 1] == Id(ws[|ws| - 1].text)
  {
    if |ts| > 2 { LastToken(ts[2..]); }
  }

  lemma LastWordIsLastToken(ts: seq<Token>)
    requires WordsIn(ts).Some?
    ensures var ws := WordsIn(ts).value; ws != [] && ts != [] && ts[|ts| - 1] == Id(ws[|ws| - 1].text)
  {
    if ts[1..] != [] {
      LastToken(ts[1..]);
    }
  }

  /** A path written without brackets reads back unless separate dots have come together, as in ". .a". */
  lemma WithoutBrackets(s: string, data: bool)
    requires ReadPath(s, data).Some?
    requires forall w :: w in WordsIn(Lex(s)).value ==> !IsBracketed(w.text)
    ensures var p := ReadPath(s, data).value;
      ReadPath(PrintPath(p), data) == Some(p) <==> !DotsMeet(WordsIn(Lex(s)).value)
  {
    hide *;
    PathHasWords(s, data);
    PathReadsBackExactly(s, data);
    WordsAreSpaced(s);
    LastWordIsLastToken(Lex(s));
    LastIsNoConstant(s);
    BareIsPrintable(WordsIn(Lex(s)).value);
  }

  lemma BareIsPrintable(ws: seq<Word>)
    requires WellSpaced(ws) && forall w :: w in ws ==> !IsBracketed(w.text)
    requires NameRun(ws[|ws| - 1].text) ==> !Reserved(ws[|ws| - 1].text)
    ensures Printable(ws) <==> !DotsMeet(ws)
  {
    hide DotsMeet, Reserved;
    forall n | 0 <= n < |ws|
      ensures Strip(ws[n].text) == ws[n].text && (IsDotWord(ws[n].text) || IsName(ws[n].text))
    {
      assert IdText(ws[n].text) by { if n > 0 { assert Follows(ws[1..][n - 1]); } }
    }
    DotsAreNoConstants();
  }

  lemma DotsAreNoConstants()
    ensures !Reserved(".") && !Reserved("..")
  {
  }

  lemma PathHasWords(s: string, data: bool)
    requires ReadPath(s, data).Some?
    ensures WordsIn(Lex(s)).Some? && Build(SegsOf(WordsIn(Lex(s)).value), data) == ReadPath(s, data)
  {
  }

  // ---- a path that is lost

  /** An index needs its brackets: without them it is a number where a name is wanted. */
  lemma BracketedIndex()
    ensures var p := Path(["a", "0"], "a.0", 0, false);
      ReadPath("a.[0]", false) == Some(p) && PrintPath(p) == "a.0" && ReadPath("a.0", false) == None
  {
    LexIndex();
    var ws := [Word("", "a"), Word(".", "[0]")];
    WordsInIndex(ws);
    StripIndex();
    BuildIndex(SegsOf(ws));
    PrintPlainIndex(ws);
  }

  lemma StripIndex()
    ensures Strip("[0]") == "0" && Strip("a") == "a"
  {
    assert "[0]"[1..2] == "0";
  }

  lemma WordsInIndex(ws: seq<Word>)
    requires ws == [Word("", "a"), Word(".", "[0]")]
    ensures WordsIn([Id("a"), Sep("."), Id("[0]")]) == Some(ws)
  {
    var ts := [Id("a"), Sep("."), Id("[0]")];
    assert ts[1..] == [Sep("."), Id("[0]")];
    assert ts[1..][2..] == [];
    var more := ParseWords(ts[1..]).0;
    assert more == [ws[1]] && ParseWords(ts[1..]).1 == [];
    assert [Word("", ts[0].id)] + more == ws;
  }

  lemma BuildIndex(s: seq<Seg>)
    requires s == [Seg(Some("a"), false, None), Seg(Some("0"), true, Some("."))]
    ensures Build(s, false) == Some(Path(["a", "0"], "a.0", 0, false))
  {
    assert s[..1] == [s[0]] && s[..1][..0] == [];
    assert s[0].Text() == "a" by { assert "" + "a" == "a"; }
    assert Texts(s[..1]) == "a" by { assert "" + "a" == "a"; }
    assert s[1].Text() == ".0";
    assert Texts(s) == "a" + ".0";
    assert Texts(s) == "a.0";
    assert Names(s[..1]) == ["a"];
    assert Names(s) == ["a"] + ["0"];
    assert !Misplaced(s) && Parents(s[..1]) == 0 && Parents(s) == 0;
    var data := false;
    assert (if data then "@" else "") + Texts(s) == "a.0";
    assert Build(s, data).value.original == "a.0" && Build(s, data).value.parts == ["a", "0"];
  }

  lemma PrintPlainIndex(ws: seq<Word>)
    requires ws == [Word("", "a"), Word(".", "[0]")]
    ensures ReadPath("a.0", false) == None
  {
    hide ReadPath;
    StripIndex();
    assert IsName("a") && IsName("0");
    assert ws[1..] == [ws[1]];
    assert WellSpaced(ws);
    var q := Plain(ws);
    assert q[1..] == [Word(".", "0")] && q[1..][1..] == [];
    assert Spell(q[1..]) == ".0";
    assert Spell(q) == "a.0";
    AllDigitsAreNumber("0");
    PlainReadsBack(ws, false);
  }

  lemma LexIndex()
    ensures Lex("a.[0]") == [Id("a"), Sep("."), Id("[0]")]
  {
    hide Next;
    LexBracket();
    var rest := ".[0]";
    RunIs("a", rest);
    assert "a" + rest == "a.[0]";
    NextIsLetter(rest);
    assert ("a" + rest)[1..] == rest;
  }

  lemma NextIsLetter(rest: string)
    requires rest != "" && Lookahead(rest[0]) && Run("a" + rest) == 1
    ensures Next("a" + rest) == (Id("a"), 1)
  {
    hide NumberLength;
    var s := "a" + rest;
    assert s[0] == 'a';
    assert NumberLength(s) == 0 by { NoNumber(s); }
    assert s[..1] == "a";
  }

  lemma NoNumber(s: string)
    requires s != "" && s[0] == 'a'
    ensures NumberLength(s) == 0
  {
    assert s[0..] == s;
  }

  lemma LexBracket()
    ensures Lex(".[0]") == [Sep("."), Id("[0]")]
  {
    var s := "[0]";
    assert Lex("") == [];
    assert Reduce(s[2..]) == "]" && s[1..][1..] == s[2..];
    assert Reduce(s[1..]) == "0]";
    assert Reduce(s) == s && s[..3] == s;
    assert BracketEnd(s, 2, 0) == 3;
    assert Next(s) == (Id(s), 3);
    assert Lex(s) == [Id(s)];
    assert ".[0]"[1..] == s;
  }
}

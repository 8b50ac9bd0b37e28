/** Paths from the words they are written with: how far they climb, what they name, and what a word is. */
module PathWords {
  import opened Options
  import opened Ast
  import opened Segments
  import opened Lexer
  import opened PathText
  import opened Contexts

  // ---- from segments

  /** .., . or this, without brackets around it. */
  predicate Dots(s: Seg) {
    s.part in {Some(".."), Some("."), Some("this")} && !s.literal
  }

  /** How many of the first n segments climb. */
  function Climbs(s: seq<Seg>, n: nat): set<nat>
    requires n <= |s|
  {
    set k: nat | k < n && s[k].part == Some("..") && !s[k].literal
  }

  /** The segments with what stands in front of them. */
  function Written(s: seq<Seg>): string
    requires forall k :: 0 <= k < |s| ==> s[k].part.Some?
  {
    if s == [] then ""
    else (if s[0].separator.Some? then s[0].separator.value else "") + s[0].part.value + Written(s[1..])
  }

  predicate Complete(s: seq<Seg>) {
    forall k :: 0 <= k < |s| ==> s[k].part.Some?
  }

  /** What the segments from n on name. */
  function NamesFrom(s: seq<Seg>, n: nat): (names: seq<string>)
    requires Complete(s) && n <= |s|
    ensures |names| == |s| - n && forall k :: 0 <= k < |names| ==> names[k] == s[n + k].part.value
  {
    seq(|s| - n, k requires 0 <= k < |s| - n => s[n + k].part.value)
  }

  /**
   Dots and then names: a path as deep as there are double dots, through the names behind them, in order; its text is
   all of it, with a sign in front of private data.
   */
  lemma PathOfWords(s: seq<Seg>, n: nat, data: bool)
    requires Complete(s) && n <= |s|
    requires forall k :: 0 <= k < |s| ==> (Dots(s[k]) <==> k < n)
    ensures Build(s, data) == Some(Path(NamesFrom(s, n),
      if data then "@" + Written(s) else Written(s), |Climbs(s, n)|, data))
  {
    SegmentsAre(s);
    NamesBehind(s, n);
    ParentsCount(s, n);
    TextsWritten(s);
    assert "" + Written(s) == Written(s);
  }

  /** A name in front of dots makes it none. */
  lemma NoPathOfWords(s: seq<Seg>, a: nat, b: nat, data: bool)
    requires Complete(s) && a < b < |s| && !Dots(s[a]) && Dots(s[b])
    ensures Build(s, data) == None
  {
    SegmentsAre(s);
    assert s[a].IsOrdinary() && s[b].IsDots();
  }

  lemma SegmentsAre(s: seq<Seg>)
    requires Complete(s)
    ensures forall k :: 0 <= k < |s| ==> (s[k].IsDots() <==> Dots(s[k])) && (s[k].IsOrdinary() <==> !Dots(s[k]))
    ensures forall k :: 0 <= k < |s| ==> (s[k].IsParent() <==> s[k].part == Some("..") && !s[k].literal)
  {
    assert ".." != "." && ".." != "this";
  }

  lemma {:induction false} NamesBehind(s: seq<Seg>, n: nat)
    requires Complete(s) && n <= |s| && forall k :: 0 <= k < |s| ==> (s[k].IsDots() <==> k < n)
    ensures Names(s) == NamesFrom(s, n)
  {
    if s != [] {
      var last := |s| - 1;
      hide NamesFrom;
      if n <= last {
        NamesBehind(s[..last], n);
        assert NamesFrom(s, n) == NamesFrom(s[..last], n) + [s[last].part.value];
      } else {
        NamesBehind(s[..last], last);
        assert NamesFrom(s, n) == NamesFrom(s[..last], last) == [];
      }
    }
  }

  lemma {:induction false} ParentsCount(s: seq<Seg>, n: nat)
    requires Complete(s) && n <= |s| && forall k :: 0 <= k < |s| ==> (s[k].IsDots() <==> k < n)
    ensures Parents(s) == |Climbs(s, n)|
  {
    if s == [] {
      assert Climbs(s, n) == {};
    } else {
      var last := |s| - 1;
      var t, m := s[..last], if n <= last then n else last;
      ParentsCount(t, m);
      SegmentsAre(s);
      if s[last].IsParent() {
        assert Climbs(s, n) == Climbs(t, m) + {last};
      } else {
        assert Climbs(s, n) == Climbs(t, m);
      }
    }
  }

  lemma {:induction false} TextsWritten(s: seq<Seg>)
    requires Complete(s)
    ensures Texts(s) == Written(s)
  {
    if s != [] {
      var last := |s| - 1;
      TextsWritten(s[..last]);
      WrittenOneMore(s[..last], s[last]);
      assert s == s[..last] + [s[last]];
      assert s[last].Text() == Written([s[last]]) by { OneWritten(s[last]); }
    }
  }

  lemma OneWritten(x: Seg)
    requires x.part.Some?
    ensures Written([x]) == (if x.separator.Some? then x.separator.value else "") + x.part.value
  {
    assert [x][1..] == [] && Written([]) == "";
  }

  lemma {:induction false} WrittenOneMore(s: seq<Seg>, x: Seg)
    requires Complete(s) && x.part.Some?
    ensures Written(s + [x]) == Written(s) + Written([x])
  {
    if s == [] {
      assert s + [x] == [x];
    } else {
      WrittenOneMore(s[1..], x);
      assert (s + [x])[1..] == s[1..] + [x];
    }
  }

  // ---- what a word is made of

  /** The characters no word contains. */
  const BREAKS := " \t\r\n!\"#%&'()*+,./;<=>@[\\]^`{|}~"

  lemma NameCharsAre(c: char)
    ensures NameChar(c) <==> c !in BREAKS
    ensures '0' <= c <= '9' || 'A' <= c <= 'Z' || 'a' <= c <= 'z' || c in "_-:$?" ==> NameChar(c)
  {
    assert forall k :: 0 <= k < |BREAKS| ==> !NameChar(BREAKS[k]);
    if !NameChar(c) { BreakIs(c); }
  }

  lemma BreakIs(c: char)
    requires !NameChar(c)
    ensures c in BREAKS
  {
  }

  lemma LookaheadIs(c: char)
    ensures Lookahead(c) <==> c in " \t\r\n=~}/.)|"
  {
  }

  /** A name is read as one word if the text ends behind it, or one of a few characters follows. */
  lemma WordEnds(t: string, c: char, rest: string)
    requires NameRun(t) && ConstantAt(t + [c] + rest).None? && !NameChar(c)
    ensures Next(t + [c] + rest) == (Id(t), |t|) <==> c in " \t\r\n=~}/.)|"
  {
    hide ConstantAt, BracketEnd, Reduce, Lookahead, NameChar;
    LookaheadIs(c);
    var s := t + [c] + rest;
    assert s == t + ([c] + rest) && s[|t|] == c;
    RunIs(t, [c] + rest);
    assert s[0] == t[0] && NameChar(t[0]);
    NameCharsAre(t[0]);
    assert s[..|t|] == t;
  }

  predicate Without(s: string, c: char) {
    forall k :: 0 <= k < |s| ==> s[k] != c
  }

  /** A name in brackets is one word, brackets included. */
  lemma BracketsAreRead(s: string, rest: string)
    requires Without(s, ']') && (s != "" ==> s[|s| - 1] != '\\')
    ensures Next("[" + s + "]" + rest) == (Id("[" + s + "]"), |s| + 2)
  {
    hide BracketEnd, Reduce;
    var t := "[" + s + "]" + rest;
    EndIs(s, rest, 0);
    assert t[..|s| + 2] == "[" + s + "]";
    Unreduced("[" + s + "]");
  }

  lemma {:induction false} EndIs(s: string, rest: string, n: nat)
    requires Without(s, ']') && (s != "" ==> s[|s| - 1] != '\\') && n <= |s|
    ensures BracketEnd("[" + s + "]" + rest, n + 1, 0) == |s| + 2
    decreases |s| - n
  {
    var t := "[" + s + "]" + rest;
    if n < |s| {
      assert t[n + 1] == s[n];
      EndIs(s, rest, n + 1);
    } else {
      assert t[n + 1] == ']' && t[n] == if s == "" then '[' else s[|s| - 1];
    }
  }

  lemma {:induction false} Unreduced(s: string)
    requires forall k :: 0 <= k < |s| - 1 ==> !(s[k] == '\\' && s[k + 1] == ']')
    ensures Reduce(s) == s
  {
    if |s| >= 2 {
      Unreduced(s[1..]);
      assert s == [s[0]] + s[1..];
    }
  }

  /** Inside, a closing bracket is written with a backslash in front of it, which is dropped. */
  lemma {:induction false} BackslashIsDropped(a: string, b: string)
    requires Without(a, '\\')
    ensures Reduce(a + "\\]" + b) == a + "]" + Reduce(b)
  {
    var s := a + "\\]" + b;
    if a == "" {
      assert s[2..] == b;
    } else {
      BackslashIsDropped(a[1..], b);
      assert s[1..] == a[1..] + "\\]" + b;
      assert [a[0]] + (a[1..] + "]" + Reduce(b)) == a + "]" + Reduce(b);
    }
  }

  predicate AreDigits(s: string) {
    s != "" && forall k :: 0 <= k < |s| ==> '0' <= s[k] <= '9'
  }

  /** Digits, with a minus in front or a point and more digits behind, are a number. */
  lemma NumbersAreRead(whole: string, part: string, negative: bool, fraction: bool)
    requires AreDigits(whole) && AreDigits(part)
    ensures var s := (if negative then "-" else "") + whole + (if fraction then "." + part else "");
      NumberLength(s) == |s|
  {
    var sign, end := if negative then "-" else "", if fraction then "." + part else "";
    var s := sign + whole + end;
    SignedParts(sign, whole, end);
    DigitsAre(whole, end);
    if fraction {
      DigitsAre(part, "");
      assert part + "" == part && end[1..] == part;
    }
    NumberFrom(s, |sign|, |whole|, end);
  }

  lemma SignedParts(sign: string, whole: string, end: string)
    requires whole != ""
    ensures var s := sign + whole + end;
      s[|sign|..] == whole + end && s[|sign| + |whole|..] == end && s[0] == if sign == "" then whole[0] else sign[0]
  {
  }

  lemma NumberFrom(s: string, sign: nat, whole: nat, end: string)
    requires sign + whole <= |s| && whole > 0 && s != "" && sign == (if s[0] == '-' then 1 else 0)
    requires Digits(s[sign..]) == whole && s[sign + whole..] == end
    requires end == "" || (end[0] == '.' && Digits(end[1..]) == |end| - 1 > 0)
    ensures NumberLength(s) == |s|
  {
    hide Digits;
    if end != "" { assert s[sign + whole] == '.' && s[sign + whole + 1..] == end[1..]; }
  }

  lemma {:induction false} DigitsAre(s: string, rest: string)
    requires (forall k :: 0 <= k < |s| ==> '0' <= s[k] <= '9') && (rest != "" ==> !('0' <= rest[0] <= '9'))
    ensures Digits(s + rest) == |s|
  {
    if s == "" {
      assert s + rest == rest;
    } else {
      DigitsAre(s[1..], rest);
      assert (s + rest)[1..] == s[1..] + rest;
    }
  }

  // ---- ../name

  /** The words of ../../name, so many levels up, behind a separator. */
  function UpWords(levels: nat, name: string, sep: string): seq<Word> {
    if levels == 0 then [Word(sep, name)] else [Word(sep, "..")] + UpWords(levels - 1, name, "/")
  }

  lemma {:induction false} UpWordsAre(levels: nat, name: string, sep: string)
    ensures var ws := UpWords(levels, name, sep);
      && |ws| == levels + 1 && Spell(ws) == sep + (Ups(levels) + name)
      && (forall k :: 0 <= k < |ws| ==> ws[k] == Word(if k == 0 then sep else "/", if k < levels then ".." else name))
  {
    var ws := UpWords(levels, name, sep);
    if levels == 0 {
      assert ws[1..] == [] && Spell([]) == "" && "" + name == name;
      assert sep + name + "" == sep + name;
    } else {
      UpWordsAre(levels - 1, name, "/");
      assert ws[1..] == UpWords(levels - 1, name, "/");
      assert Spell(ws) == sep + ".." + ("/" + (Ups(levels - 1) + name));
      assert sep + ".." + ("/" + (Ups(levels - 1) + name)) == sep + ("../" + Ups(levels - 1) + name);
    }
  }

  lemma {:induction false} ClimbsAll(s: seq<Seg>, n: nat)
    requires n <= |s| && forall k :: 0 <= k < n ==> s[k].part == Some("..") && !s[k].literal
    ensures |Climbs(s, n)| == n
  {
    if n == 0 {
      assert Climbs(s, n) == {};
    } else {
      ClimbsAll(s, n - 1);
      assert Climbs(s, n) == Climbs(s, n - 1) + {n - 1};
    }
  }

  lemma {:induction false} WrittenSpells(ws: seq<Word>)
    requires forall k :: 0 <= k < |ws| ==> Strip(ws[k].text) == ws[k].text
    ensures Written(SegsOf(ws)) == Spell(ws)
  {
    if ws != [] {
      WrittenSpells(ws[1..]);
      assert SegsOf(ws)[1..] == SegsOf(ws[1..]);
      assert "" + ws[0].text == ws[0].text;
    }
  }

  /** ../name, so many levels up, is the path of that depth with that name. */
  lemma UpNameIsRead(levels: nat, name: string)
    requires levels > 0 && IsName(name) && !Reserved(name)
    ensures ReadPath(Ups(levels) + name, false) == Some(Above(name, levels))
  {
    hide Lex, WordsIn, Spell, Build, Strip, Reserved, Written, Climbs, Names, Texts, Ups, UpWords;
    var ws := UpWords(levels, name, "");
    UpWordsAre(levels, name, "");
    assert Spell(ws) == Ups(levels) + name;
    NamesKeepThemselves(name);
    var s := SegsOf(ws);
    UpWordsReadBack(ws, levels, name);
    SpellingReadsBack(ws);
    assert forall k :: 0 <= k < |s| ==> s[k] == Seg(Some(ws[k].text), false, if k == 0 then None else Some("/"));
    assert name != "." && name != ".." && name != "this" by { DotsAreBreaks(name); }
    PathOfWords(s, levels, false);
    WrittenSpells(ws);
    ClimbsAll(s, levels);
    assert NamesFrom(s, levels) == [name];
  }

  lemma NamesKeepThemselves(name: string)
    requires IsName(name)
    ensures Strip(name) == name && Strip("..") == ".."
  {
    assert NameChar(name[0]);
  }

  lemma DotsAreBreaks(name: string)
    requires IsName(name)
    ensures name != "." && name != ".." && name != "this"
  {
    assert NameChar(name[0]) && !NameChar('.');
  }

  lemma UpWordsReadBack(ws: seq<Word>, levels: nat, name: string)
    requires levels > 0 && IsName(name) && !Reserved(name) && |ws| == levels + 1
    requires forall k :: 0 <= k < |ws| ==>
      ws[k] == Word(if k == 0 then "" else "/", if k < levels then ".." else name)
    ensures WellSpaced(ws) && Bare(ws) && ReadsBack(ws)
  {
    hide IsName, Reserved;
    var tail := ws[1..];
    assert forall k :: 0 <= k < |tail| ==> tail[k] == ws[k + 1];
  }
}

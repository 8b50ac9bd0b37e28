/**
 What the rewritten template says to whoever reads it: a set-delimiters tag names the new delimiters, opening one
 first, and text is text.
 */
module Tags {
  import opened Options
  import opened Delimiters
  import opened Rendering

  // ---- reading a quoted string

  /** The scanner's token: up to the first quote that is not read with the backslash in front of it. */
  function Quoted(s: string): Option<(string, string)> {
    if s == "" then None
    else if s[0] == '"' then Some(("", s[1..]))
    else
      var n := if |s| >= 2 && s[0] == '\\' && s[1] == '"' then 2 else 1;
      match Quoted(s[n..])
      case None => None
      case Some((inside, rest)) => Some((s[..n] + inside, rest))
  }

  predicate Hex(c: char) {
    '0' <= c <= '9' || 'a' <= c <= 'f' || 'A' <= c <= 'F'
  }

  function HexValue(c: char): nat
    requires Hex(c)
  {
    if c <= '9' then (c - '0') as nat else if c <= 'F' then (c - 'A') as nat + 10 else (c - 'a') as nat + 10
  }

  predicate Octal(c: char) {
    '0' <= c <= '7'
  }

  function Byte(n: nat): char {
    (n % 256) as char
  }

  /** How many octal digits, three at most, s begins with, and their value. */
  function OctalAt(s: string, most: nat): (r: (nat, nat))
    ensures r.0 <= |s|
  {
    if most == 0 || s == "" || !Octal(s[0]) then (0, 0)
    else
      var (n, v) := OctalAt(s[1..], most - 1);
      (n + 1, v + (s[0] - '0') as nat * (if n == 0 then 1 else if n == 1 then 8 else 64))
  }

  /** What a backslash in front of s stands for, and how much of s it takes. */
  function EscapeAt(s: string): (r: (char, nat))
    requires s != ""
    ensures 1 <= r.1 <= |s|
  {
    match s[0]
    case 'n' => ('\n', 1)
    case 'r' => ('\r', 1)
    case 'a' => (Byte(7), 1)
    case 't' => ('\t', 1)
    case 'v' => (Byte(11), 1)
    case 'b' => (Byte(8), 1)
    case 'f' => (Byte(12), 1)
    case 'x' =>
      if |s| >= 3 && Hex(s[1]) && Hex(s[2]) then (Byte(16 * HexValue(s[1]) + HexValue(s[2])), 3)
      else if |s| >= 2 && Hex(s[1]) then (Byte(HexValue(s[1])), 2)
      else ('x', 1)
    case c =>
      var (n, v) := OctalAt(s, 3);
      if n == 0 then (c, 1) else (Byte(v), n)
  }

  /** handlebars_string_stripcslashes */
  function StripSlashes(s: string): string {
    if s == "" then ""
    else if s[0] == '\\' && |s| >= 2 then
      var (c, n) := EscapeAt(s[1..]);
      [c] + StripSlashes(s[n + 1..])
    else [s[0]] + StripSlashes(s[1..])
  }

  // ---- reading a tag

  /** What follows a given beginning. */
  function After(s: string, start: string): Option<string> {
    if start <= s then Some(s[|start|..]) else None
  }

  /** A string in quotes, and what comes behind it. */
  function ReadString(s: string): Option<(string, string)> {
    match Quoted(s)
    case None => None
    case Some((inside, rest)) => Some((StripSlashes(inside), rest))
  }

  /** The arguments of a call of hbsc_set_delimiters with two strings, and what comes behind it. */
  function ReadSetTag(s: string): Option<(string, string, string)> {
    match After(s, "{{hbsc_set_delimiters \"")
    case None => None
    case Some(a) =>
      match ReadString(a)
      case None => None
      case Some((open, b)) =>
        match After(b, " \"")
        case None => None
        case Some(c) =>
          match ReadString(c)
          case None => None
          case Some((close, d)) =>
            match After(d, "}}")
            case None => None
            case Some(rest) => Some((open, close, rest))
  }

  /** The text does not end in a backslash, which would take its closing quote. */
  predicate ClosesWell(s: string) {
    s != "" ==> s[|s| - 1] != '\\'
  }

  /** Every backslash stands in front of a quote. */
  predicate SlashesQuotes(s: string) {
    forall k :: 0 <= k < |s| && s[k] == '\\' ==> k + 1 < |s| && s[k + 1] == '"'
  }

  lemma {:induction false} QuotedIs(s: string, rest: string)
    requires ClosesWell(s)
    ensures Quoted(AddSlashes(s) + "\"" + rest) == Some((AddSlashes(s), rest))
  {
    var t := AddSlashes(s) + "\"" + rest;
    if s == "" {
      assert t == "\"" + rest;
    } else {
      QuotedIs(s[1..], rest);
      var n := if s[0] == '"' then 2 else 1;
      SlashesBegin(s);
      assert t[n..] == AddSlashes(s[1..]) + "\"" + rest;
      assert t[..n] + AddSlashes(s[1..]) == AddSlashes(s);
      if s[0] == '\\' { SlashesBegin(s[1..]); }
    }
  }

  /** A quote gets a backslash; nothing else begins with one that did not. */
  lemma SlashesBegin(s: string)
    requires s != ""
    ensures AddSlashes(s) == (if s[0] == '"' then ['\\', '"'] else [s[0]]) + AddSlashes(s[1..])
    ensures AddSlashes(s) != "" && AddSlashes(s)[0] != '"'
  {
  }

  /** As far as there are neither quotes nor backslashes, nothing was added. */
  lemma {:induction false} NothingAdded(s: string, n: nat)
    requires n <= |AddSlashes(s)| && forall k :: 0 <= k < n ==> Hex(AddSlashes(s)[k])
    ensures n <= |s| && AddSlashes(s)[n..] == AddSlashes(s[n..])
  {
    if n > 0 {
      var t, u := AddSlashes(s), AddSlashes(s[1..]);
      SlashesBegin(s);
      assert s[0] != '"' by { assert Hex(t[0]); }
      assert u == t[1..];
      NothingAdded(s[1..], n - 1);
      assert s[1..][n - 1..] == s[n..] && u[n - 1..] == t[n..];
    } else {
      assert s[0..] == s;
    }
  }

  lemma {:induction false} OctalsAreHex(s: string, most: nat)
    ensures forall k :: 0 <= k < OctalAt(s, most).0 ==> Hex(s[k])
  {
    if most > 0 && s != "" && Octal(s[0]) { OctalsAreHex(s[1..], most - 1); }
  }

  lemma EscapesAreHex(s: string)
    requires s != ""
    ensures forall k :: 1 <= k < EscapeAt(s).1 ==> Hex(s[k])
  {
    hide OctalAt, HexValue, Byte;
    OctalsAreHex(s, 3);
  }

  /** What the backslash in front of s takes when quotes have got theirs: nothing that was added. */
  lemma EscapeTakes(s: string)
    requires s != "" && s[0] != '"'
    ensures var n := EscapeAt(AddSlashes(s)).1; n <= |s| && AddSlashes(s)[n..] == AddSlashes(s[n..])
  {
    hide EscapeAt, Hex, AddSlashes;
    var t, u := AddSlashes(s), AddSlashes(s[1..]);
    SlashesBegin(s);
    var n := EscapeAt(t).1;
    EscapesAreHex(t);
    assert u == t[1..];
    forall k | 0 <= k < n - 1 ensures Hex(u[k]) {
      assert u[k] == t[k + 1];
    }
    NothingAdded(s[1..], n - 1);
    assert s[1..][n - 1..] == s[n..] && u[n - 1..] == t[n..];
  }

  lemma StripStep(t: string)
    requires t != ""
    ensures t[0] == '\\' && |t| >= 2 ==>
      var (c, n) := EscapeAt(t[1..]);
      StripSlashes(t) == [c] + StripSlashes(t[n + 1..])
    ensures t[0] != '\\' || |t| == 1 ==> StripSlashes(t) == [t[0]] + StripSlashes(t[1..])
  {
    hide EscapeAt;
  }

  lemma StripsPlain(s: string)
    requires s != "" && (s[0] != '\\' || |s| == 1)
    ensures StripSlashes(AddSlashes(s)) == [s[0]] + StripSlashes(AddSlashes(s[1..]))
  {
    hide AddSlashes, EscapeAt, StripSlashes;
    var t := AddSlashes(s);
    SlashesBegin(s);
    StripStep(t);
    if s[0] == '"' {
      QuoteIsPlain(t[1..]);
      assert t[1 + 1..] == AddSlashes(s[1..]);
    } else {
      NoSlashes();
      if |s| == 1 { assert s[1..] == ""; }
      assert t[1..] == AddSlashes(s[1..]);
    }
  }

  lemma NoSlashes()
    ensures AddSlashes("") == ""
  {
  }

  lemma QuoteIsPlain(s: string)
    requires s != "" && s[0] == '"'
    ensures EscapeAt(s) == ('"', 1)
  {
    assert OctalAt(s, 3) == (0, 0);
  }

  lemma StripsSlash(s: string)
    requires |s| >= 2 && s[0] == '\\'
    ensures StripSlashes(AddSlashes(s)) ==
      if s[1] == '"' then ['\\', '"'] + StripSlashes(AddSlashes(s[2..]))
      else
        var (c, n) := EscapeAt(AddSlashes(s[1..]));
        [c] + StripSlashes(AddSlashes(s[1..])[n..])
  {
    hide AddSlashes, EscapeAt, StripSlashes;
    var t, u := AddSlashes(s), AddSlashes(s[1..]);
    SlashesBegin(s);
    SlashesBegin(s[1..]);
    assert t == ['\\'] + u && t[1..] == u;
    StripStep(t);
    if s[1] == '"' {
      assert s[1..][1..] == s[2..];
      SlashIsPlain(u);
      StripsQuote(u, s[2..]);
      assert t[1 + 1..] == u[1..];
    } else {
      var n := EscapeAt(u).1;
      assert t[n + 1..] == u[n..];
    }
  }

  lemma StripsQuote(u: string, rest: string)
    requires u == ['\\', '"'] + AddSlashes(rest)
    ensures StripSlashes(u[1..]) == ['"'] + StripSlashes(AddSlashes(rest))
  {
    hide AddSlashes, EscapeAt, StripSlashes;
    assert u[1..][0] == '"' && u[1..][1..] == AddSlashes(rest);
    StripStep(u[1..]);
  }

  lemma SlashIsPlain(s: string)
    requires s != "" && s[0] == '\\'
    ensures EscapeAt(s) == ('\\', 1)
  {
    assert OctalAt(s, 3) == (0, 0);
  }

  lemma {:induction false} NeverLonger(s: string)
    ensures |StripSlashes(AddSlashes(s))| <= |s|
    decreases |s|
  {
    if s != "" {
      NeverLonger(s[1..]);
      if s[0] != '\\' || |s| == 1 {
        StripsPlain(s);
      } else {
        StripsSlash(s);
        NeverLonger(s[2..]);
        if s[1] != '"' {
          EscapeTakes(s[1..]);
          var n := EscapeAt(AddSlashes(s[1..])).1;
          NeverLonger(s[1..][n..]);
        }
      }
    }
  }

  /** A delimiter is read as it was if and only if its backslashes all stand in front of quotes. */
  lemma {:induction false} DelimiterReadsBack(s: string)
    requires ClosesWell(s)
    ensures StripSlashes(AddSlashes(s)) == s <==> SlashesQuotes(s)
    decreases |s|
  {
    if s != "" {
      var back := StripSlashes(AddSlashes(s));
      if s[0] == '\\' {
        StripsSlash(s);
        if s[1] == '"' {
          DelimiterReadsBack(s[2..]);
          assert s == ['\\', '"'] + s[2..];
          Further(s, 2);
        } else {
          EscapeTakes(s[1..]);
          var n := EscapeAt(AddSlashes(s[1..])).1;
          NeverLonger(s[1..][n..]);
          assert |back| < |s|;
        }
      } else {
        StripsPlain(s);
        DelimiterReadsBack(s[1..]);
        assert s == [s[0]] + s[1..];
        Further(s, 1);
      }
    }
  }

  lemma Further(s: string, n: nat)
    requires n <= |s| && SlashesQuotes(s[..n])
    ensures SlashesQuotes(s) <==> SlashesQuotes(s[n..])
  {
    assert forall k :: n <= k < |s| ==> s[n..][k - n] == s[k];
    assert forall k :: 0 <= k < |s| - n ==> s[n..][k] == s[k + n];
    assert forall k :: 0 <= k < n ==> s[..n][k] == s[k];
  }

  lemma AfterStart(start: string, s: string)
    ensures After(start + s, start) == Some(s)
  {
    assert (start + s)[..|start|] == start && (start + s)[|start|..] == s;
  }

  /**
   The tag the scanner writes for a switch is read as the opening and the closing delimiter, in this order, if and only
   if every backslash in them stands in front of a quote; neither may end in one.
   */
  lemma TagReadsBackExactly(open: string, close: string, rest: string)
    requires ClosesWell(open) && ClosesWell(close)
    ensures ReadSetTag(SetTag(open, close) + rest) == Some((open, close, rest)) <==>
      SlashesQuotes(open) && SlashesQuotes(close)
  {
    hide AddSlashes, Quoted, After, StripSlashes;
    var e := "}}" + rest;
    var d := AddSlashes(close) + "\"" + e;
    var c := " \"" + d;
    var b := AddSlashes(open) + "\"" + c;
    assert SetTag(open, close) + rest == "{{hbsc_set_delimiters \"" + b;
    AfterStart("{{hbsc_set_delimiters \"", b);
    QuotedIs(open, c);
    AfterStart(" \"", d);
    QuotedIs(close, e);
    AfterStart("}}", rest);
    DelimiterReadsBack(open);
    DelimiterReadsBack(close);
  }

  // ---- reading text

  predicate NoBackslash(s: string) {
    forall k :: 0 <= k < |s| ==> s[k] != '\\'
  }

  /** Between tags, \{ stands for a brace that begins none. */
  function Unescaped(s: string): string {
    if |s| >= 2 && s[0] == '\\' && s[1] == '{' then ['{'] + Unescaped(s[2..])
    else if s == "" then ""
    else [s[0]] + Unescaped(s[1..])
  }

  /** At n a tag begins: two braces, and no backslash in front of them. */
  predicate TagAt(s: string, n: nat) {
    n + 2 <= |s| && s[n] == '{' && s[n + 1] == '{' && (n == 0 || s[n - 1] != '\\')
  }

  /** Text without backslashes is escaped so that no tag begins in it and that it reads as it was. */
  lemma {:induction false} EscapedReadsBack(s: string)
    requires NoBackslash(s)
    ensures Unescaped(Escaped(s, false)) == s
    ensures forall n: nat :: !TagAt(Escaped(s, false), n)
  {
    if s != "" {
      var t := Escaped(s[1..], false);
      EscapedReadsBack(s[1..]);
      assert [s[0]] + s[1..] == s;
      EscapedBegins(s[1..]);
      var slash := if |s| >= 2 && s[0] == '{' && s[1] == '{' then ['\\'] else [];
      var e := Escaped(s, false);
      assert e == slash + [s[0]] + t && e[|slash| + 1..] == t;
      forall n: nat ensures !TagAt(e, n) {
        if n > |slash| {
          assert !TagAt(t, n - |slash| - 1);
          assert forall k :: 0 <= k < |t| ==> e[|slash| + 1 + k] == t[k];
        }
      }
    }
  }

  lemma EscapedBegins(s: string)
    requires NoBackslash(s)
    ensures s == "" <==> Escaped(s, false) == ""
    ensures s != "" ==> Escaped(s, false)[0] == if |s| >= 2 && s[0] == '{' && s[1] == '{' then '\\' else s[0]
  {
  }

  // ---- the rewritten template

  /** out says what the document does: its text, its tags, and for every switch a tag that names the new delimiters. */
  ghost predicate Says(out: string, doc: seq<Piece>, d: Delims)
    requires Shaped(doc)
    decreases |doc|
  {
    if doc == [] then out == ""
    else
      match doc[0]
      case Text(s) => exists t, rest ::
        out == t + rest && SaysText(t, s, d) && Says(rest, doc[1..], d)
      case Tag(body) => After(out, "{{" + body + "}}").Some?
        && Says(After(out, "{{" + body + "}}").value, doc[1..], d)
      case Switch(open, close, _, _, _) =>
        ReadSetTag(out).Some? && ReadSetTag(out).value.0 == open && ReadSetTag(out).value.1 == close
        && Says(ReadSetTag(out).value.2, doc[1..], Delims(open, close, open[0] == '{'))
  }

  /** t is s, with a backslash more in front of some of its braces. */
  predicate Slashed(t: string, s: string) {
    if s == "" then t == ""
    else
      || (t != "" && t[0] == s[0] && Slashed(t[1..], s[1..]))
      || (|t| >= 2 && t[0] == '\\' && t[1] == s[0] == '{' && Slashed(t[2..], s[1..]))
  }

  /**
   Under an opening delimiter that was given and begins with a brace, text is what it was; otherwise it has some
   backslashes more, and, if it had none, reads as it was and begins no tag.
   */
  ghost predicate SaysText(t: string, s: string, d: Delims) {
    && Slashed(t, s) && (d.bracket ==> t == s)
    && (NoBackslash(s) && !d.bracket ==> Unescaped(t) == s && forall n: nat :: !TagAt(t, n))
  }

  lemma {:induction false} EscapedIsSlashed(s: string, bracket: bool)
    ensures Slashed(Escaped(s, bracket), s) && (bracket ==> Escaped(s, bracket) == s)
    decreases |s|
  {
    if s != "" {
      var e := Escaped(s, bracket);
      if s[0] == '\\' && |s| >= 2 {
        EscapedIsSlashed(s[2..], bracket);
        assert e[1..][1..] == Escaped(s[2..], bracket) && s[1..][1..] == s[2..];
        assert Slashed(e[1..], s[1..]);
        assert s == s[..2] + s[2..];
      } else {
        EscapedIsSlashed(s[1..], bracket);
        var slash := |s| >= 2 && s[0] == '{' && s[1] == '{' && !bracket;
        assert e[if slash then 2 else 1..] == Escaped(s[1..], bracket);
        assert s == [s[0]] + s[1..];
      }
    }
  }

  /** The new delimiters can stand in a quoted string. */
  predicate Quotable(doc: seq<Piece>) {
    forall n :: 0 <= n < |doc| && doc[n].Switch? ==>
      && ClosesWell(doc[n].open) && SlashesQuotes(doc[n].open)
      && ClosesWell(doc[n].close) && SlashesQuotes(doc[n].close)
  }

  lemma {:induction false} CanonicalSays(doc: seq<Piece>, d: Delims)
    requires Shaped(doc) && Quotable(doc)
    ensures Says(Canonical(doc, d), doc, d)
    decreases |doc|
  {
    hide SetTag, ReadSetTag, Unescaped, Escaped, SaysText, ClosesWell, SlashesQuotes;
    if doc != [] {
      var d' := Rendering.After(doc[0], d);
      var rest := Canonical(doc[1..], d');
      CanonicalSays(doc[1..], d');
      match doc[0]
      case Text(s) =>
        TextSays(s, d);
        assert Canonical(doc, d) == Escaped(s, d.bracket) + rest;
      case Tag(body) => AfterStart("{{" + body + "}}", rest);
      case Switch(open, close, _, _, _) => TagReadsBackExactly(open, close, rest);
    }
  }

  lemma TextSays(s: string, d: Delims)
    ensures SaysText(Escaped(s, d.bracket), s, d)
  {
    EscapedIsSlashed(s, d.bracket);
    if NoBackslash(s) && !d.bracket { EscapedReadsBack(s); }
  }

  /**
   Scanning the rendering of a document gives a template that says what the document does: text, tags, and new
   delimiters, in their order, whenever the delimiters can stand in a quoted string.
   */
  lemma ScanSays(doc: seq<Piece>, d: Delims)
    requires Shaped(doc) && ValidDelims(d) && WellFormed(doc, d) && Quotable(doc)
    ensures Outside(Render(doc, d), d).Done? && Says(Outside(Render(doc, d), d).text, doc, d)
  {
    ScanUndoesRender(doc, d);
    CanonicalSays(doc, d);
  }

  // ---- the delimiters at the start

  /** A tag under delimiters that were given, one of them or both, comes through as one in {{ }}. */
  lemma GivenTag(open: Option<string>, close: Option<string>, o: string, c: string, body: string)
    requires open != Some("") && close != Some("") && o != "" && o[0] != '\\'
    requires (open == Some(o) || (open.None? && o == "{{")) && (close == Some(c) || (close.None? && c == "}}"))
    requires body != "" && body[0] != '=' && EndsWhereItShould(body, c)
    ensures Preprocess(o + body + c, open, close) == Done("{{" + body + "}}")
  {
    var d := Initial(open, close);
    TagMeaning(body, "", d);
    assert o + body + c + "" == o + body + c;
    assert "{{" + body + "}}" + "" == "{{" + body + "}}";
  }

  /** {{=<% %>=}} */
  lemma SwitchText()
    ensures Preprocess("{{=<% %>=}}", None, None) == Done("{{hbsc_set_delimiters \"<%\" \"%>\"}}")
  {
    hide Preprocess, AddSlashes, WellFormed;
    var p := Switch("<%", "%>", 0, 1, 0);
    var doc, d := [p], Initial(None, None);
    assert Blanks(0) == "" && Blanks(1) == " ";
    assert RenderPiece(p, d) + "" == "{{=<% %>=}}";
    assert doc[1..] == [] && Render(doc, d) == "{{=<% %>=}}";
    assert WellFormed(doc, d) by { OneWellFormed(p, d); }
    PreprocessUndoesRender(doc, None, None);
    SlashesNothing("<%");
    SlashesNothing("%>");
    assert Canonical(doc, d) == SetTag("<%", "%>") + "";
  }

  lemma OneWellFormed(p: Piece, d: Delims)
    requires Shaped([p]) && WellFormedPiece(p, "", d)
    ensures WellFormed([p], d)
  {
    assert [p][1..] == [];
    assert Render([], Rendering.After(p, d)) == "" && WellFormed([], Rendering.After(p, d));
  }

  lemma SlashesNothing(s: string)
    requires |s| == 2 && s[0] != '"' && s[1] != '"'
    ensures AddSlashes(s) == s
  {
    assert s[1..][1..] == "" && AddSlashes("") == "";
    assert AddSlashes(s[1..]) == s[1..];
  }

  // ---- switches that are none

  predicate Without(s: string, c: char) {
    forall k :: 0 <= k < |s| ==> s[k] != c
  }

  /** As long as a switch at least is. */
  predicate LongEnough(s: string, d: Delims) {
    |s| >= |d.open| + |d.close| + 4
  }

  lemma NoBlankFails(d: Delims, open: string)
    requires ValidDelims(d) && Without(open, ' ') && LongEnough(d.open + "=" + open, d)
    ensures Outside(d.open + "=" + open, d) == Failed("Delimiter change must contain a space")
  {
    hide SkipSpaces, Until;
    var s := d.open + "=" + open;
    assert s[..|d.open|] == d.open && s[|d.open|] == '=' && s[|d.open| + 1..] == open && s[0] == d.open[0];
    SkipSpacesIs(open, 0);
    UntilIs(open, ' ', |open|);
  }

  /** The first half of a switch is read up to the blank. */
  lemma OpenIsRead(d: Delims, open: string, t: string)
    requires ValidDelims(d) && open != "" && Without(open, ' ') && LongEnough(d.open + "=" + open + " " + t, d)
    ensures var s := d.open + "=" + open + " " + t;
      SwitchAhead(s, d) && s[0] != '\\' && ReadSwitch(s, d) == ReadClose(open, " " + t, d.close)
  {
    hide SkipSpaces, Until, ReadClose;
    var s, a := d.open + "=" + open + " " + t, open + (" " + t);
    Assoc(d.open + "=" + open, " ", t);
    Assoc(d.open + "=", open, " " + t);
    Assoc(d.open, "=", a);
    assert s[..|d.open|] == d.open && s[|d.open|] == '=' && s[|d.open| + 1..] == a && s[0] == d.open[0];
    SkipSpacesIs(a, 0);
    UntilIs(a, ' ', |open|);
    assert a[..|open|] == open && a[|open|..] == " " + t;
    assert a[0..] == a;
  }

  lemma NoEqualsFails(d: Delims, open: string, close: string)
    requires ValidDelims(d) && open != "" && Without(open, ' ') && Without(close, '=')
    requires (close == "" || close[0] != ' ') && LongEnough(d.open + "=" + open + " " + close, d)
    ensures Outside(d.open + "=" + open + " " + close, d) == Failed("Delimiter change must contain two equals")
  {
    hide SkipSpaces, Until, ReadSwitch;
    OpenIsRead(d, open, close);
    var t := " " + close;
    SkipSpacesIs(t, 1);
    assert t[1..] == close;
    UntilIs(close, '=', |close|);
  }

  lemma NoEndFails(d: Delims, open: string, close: string, rest: string)
    requires ValidDelims(d) && open != "" && Without(open, ' ') && Without(close, '=') && close != "" && close[0] != ' '
    requires !(d.close <= rest) && LongEnough(d.open + "=" + open + " " + (close + "=" + rest), d)
    ensures Outside(d.open + "=" + open + " " + (close + "=" + rest), d)
      == Failed("Delimiter change must end with an equals")
  {
    hide SkipSpaces, Until, ReadSwitch, TrimEnd;
    var c := close + "=" + rest;
    OpenIsRead(d, open, c);
    var t := " " + c;
    SkipSpacesIs(t, 1);
    assert t[1..] == c;
    UntilIs(c, '=', |close|);
    assert c[..|close|] == close && c[|close| + 1..] == rest;
  }
}

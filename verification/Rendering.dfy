/** The delimiter scanner undoes the rendering of documents, and leaves templates in {{ }} form alone. */
module Rendering {
  import opened Options
  import opened Delimiters

  /** A document: literal text, tags, and changes of the delimiters written with any number of blanks. */
  datatype Piece =
    | Text(s: string)
    | Tag(body: string)
    | Switch(open: string, close: string, before: nat, between: nat, after: nat)

  function Blanks(n: nat): (s: string)
    ensures |s| == n && forall k :: 0 <= k < n ==> s[k] == ' '
  {
    if n == 0 then [] else [' '] + Blanks(n - 1)
  }

  function After(p: Piece, d: Delims): Delims
    requires p.Switch? ==> p.open != []
  {
    if p.Switch? then Delims(p.open, p.close, p.open[0] == '{') else d
  }

  function RenderPiece(p: Piece, d: Delims): string {
    match p
    case Text(s) => s
    case Tag(body) => d.open + body + d.close
    case Switch(open, close, before, between, after) =>
      d.open + "=" + Blanks(before) + open + Blanks(between) + close + Blanks(after) + "=" + d.close
  }

  /** The document as a template under the delimiters in force. */
  function Render(doc: seq<Piece>, d: Delims): string
    requires Shaped(doc)
  {
    if doc == [] then [] else RenderPiece(doc[0], d) + Render(doc[1..], After(doc[0], d))
  }

  predicate Shaped(doc: seq<Piece>) {
    forall n :: 0 <= n < |doc| && doc[n].Switch? ==> doc[n].open != [] && doc[n].close != []
  }

  /** Literal text as it has to stand in a {{ }} template: unless the delimiter is a brace, {{ gets a backslash. */
  function Escaped(s: string, bracket: bool): string {
    if s == [] then []
    else if s[0] == '\\' && |s| >= 2 then s[..2] + Escaped(s[2..], bracket)
    else (if |s| >= 2 && s[0] == '{' && s[1] == '{' && !bracket then ['\\'] else []) + [s[0]] + Escaped(s[1..], bracket)
  }

  /** The same document in {{ }} form. */
  function Canonical(doc: seq<Piece>, d: Delims): string
    requires Shaped(doc)
  {
    if doc == [] then []
    else
      (match doc[0]
       case Text(s) => Escaped(s, d.bracket)
       case Tag(body) => "{{" + body + "}}"
       case Switch(open, close, _, _, _) => SetTag(open, close))
      + Canonical(doc[1..], After(doc[0], d))
  }

  // ---- well-formed documents

  predicate ValidDelims(d: Delims) {
    d.open != [] && d.close != [] && d.open[0] != '\\' && (d.open == "{{" || (d.bracket <==> d.open[0] == '{'))
  }

  /** Outside of escapes, no opening delimiter begins in s, even one that ends in what follows; no escape is cut off. */
  predicate PlainText(s: string, rest: string, open: string) {
    s == [] ||
    (if s[0] == '\\' then |s| >= 2 && PlainText(s[2..], rest, open)
     else !(open <= s + rest) && PlainText(s[1..], rest, open))
  }

  /** The first closing delimiter in the tag is the one behind its body. */
  predicate EndsWhereItShould(body: string, close: string) {
    forall k :: 0 <= k < |body| ==> !(close <= (body + close)[k..])
  }

  predicate WellFormedPiece(p: Piece, rest: string, d: Delims) {
    match p
    case Text(s) => PlainText(s, rest, d.open)
    case Tag(body) => body != [] && body[0] != '=' && EndsWhereItShould(body, d.close)
    case Switch(open, close, _, between, _) =>
      && open != [] && open[0] != '\\' && (forall k :: 0 <= k < |open| ==> open[k] != ' ')
      && close != [] && close[0] != ' ' && close[|close| - 1] != ' ' && (forall k :: 0 <= k < |close| ==>
        close[k] != '=')
      && between >= 1
  }

  predicate WellFormed(doc: seq<Piece>, d: Delims)
    requires Shaped(doc)
  {
    doc == [] ||
    (&& (doc[0].Text? && |doc| > 1 ==> !doc[1].Text?)
     && WellFormedPiece(doc[0], Render(doc[1..], After(doc[0], d)), d)
     && WellFormed(doc[1..], After(doc[0], d)))
  }

  // ---- the theorem

  lemma {:induction false} TextMeaning(s: string, rest: string, d: Delims)
    requires ValidDelims(d) && PlainText(s, rest, d.open) && (rest == [] || d.open <= rest)
    ensures Outside(s + rest, d) == Emit(Escaped(s, d.bracket), Outside(rest, d))
    decreases |s|
  {
    hide Emit, Outside;
    if s == [] {
      assert s + rest == rest;
      EmitEmpty(Outside(rest, d));
    } else if s[0] == '\\' {
      TextMeaning(s[2..], rest, d);
      SlashMeaning(s, rest, d);
      EmitTwice(s[..2], Escaped(s[2..], d.bracket), Outside(rest, d));
    } else {
      TextMeaning(s[1..], rest, d);
      CharMeaning(s, rest, d);
      var slash := if |s| >= 2 && s[0] == '{' && s[1] == '{' && !d.bracket then ['\\'] else [];
      EmitTwice(slash + [s[0]], Escaped(s[1..], d.bracket), Outside(rest, d));
    }
  }

  lemma EmitEmpty(o: Outcome)
    ensures Emit([], o) == o
  {
    if o.Done? { assert [] + o.text == o.text; }
  }

  lemma SlashMeaning(s: string, rest: string, d: Delims)
    requires ValidDelims(d) && |s| >= 2 && s[0] == '\\'
    ensures Outside(s + rest, d) == Emit(s[..2], Outside(s[2..] + rest, d))
  {
    assert (s + rest)[2..] == s[2..] + rest;
    assert ['\\', At(s + rest, 1)] == s[..2];
  }

  lemma CharMeaning(s: string, rest: string, d: Delims)
    requires ValidDelims(d) && s != [] && s[0] != '\\' && !(d.open <= s + rest) && (rest == [] || d.open <= rest)
    ensures var slash := if |s| >= 2 && s[0] == '{' && s[1] == '{' && !d.bracket then ['\\'] else [];
      Outside(s + rest, d) == Emit(slash + [s[0]], Outside(s[1..] + rest, d))
  {
    assert (s + rest)[1..] == s[1..] + rest;
    if |s| == 1 && rest != [] {
      assert rest[0] == d.open[0] && (s + rest)[..2] == [s[0], rest[0]];
    }
  }

  lemma {:induction false} BodyMeaning(body: string, rest: string, d: Delims)
    requires ValidDelims(d) && EndsWhereItShould(body, d.close)
    ensures Inside(body + d.close + rest, d) == Emit(body + "}}", Outside(rest, d))
    decreases |body|
  {
    var s := body + d.close + rest;
    if body == [] {
      assert s[|d.close|..] == rest;
      assert [] + "}}" == "}}";
    } else {
      EndsLater(body, d.close);
      BodyMeaning(body[1..], rest, d);
      BodyStep(body, rest, d);
      EmitTwice([body[0]], body[1..] + "}}", Outside(rest, d));
      assert [body[0]] + (body[1..] + "}}") == body + "}}";
    }
  }

  lemma EndsLater(body: string, close: string)
    requires body != [] && EndsWhereItShould(body, close)
    ensures EndsWhereItShould(body[1..], close)
  {
    var b := body[1..];
    forall k | 0 <= k < |b| ensures !(close <= (b + close)[k..]) {
      assert (b + close)[k..] == (body + close)[k + 1..];
    }
  }

  lemma BodyStep(body: string, rest: string, d: Delims)
    requires ValidDelims(d) && body != [] && EndsWhereItShould(body, d.close)
    ensures Inside(body + d.close + rest, d) == Emit([body[0]], Inside(body[1..] + d.close + rest, d))
  {
    hide Outside, Emit;
    var s := body + d.close + rest;
    assert s[1..] == body[1..] + d.close + rest;
    assert (body + d.close)[0..] == body + d.close && s[..|d.close|] == (body + d.close)[..|d.close|];
  }

  lemma {:induction false} SkipBlanksOf(n: nat, s: string)
    requires s == [] || s[0] != ' '
    ensures SkipSpaces(Blanks(n) + s) == s
  {
    if n == 0 {
      assert Blanks(0) + s == s;
    } else {
      SkipBlanksOf(n - 1, s);
      assert (Blanks(n) + s)[1..] == Blanks(n - 1) + s;
    }
  }

  lemma Assoc(a: string, b: string, c: string)
    ensures a + b + c == a + (b + c)
  {
  }

  /** A rendered switch, read from the left. */
  function SwitchFrom(p: Piece, d: Delims, rest: string): string
    requires p.Switch?
  {
    d.open + ("=" + (Blanks(p.before) + (p.open + (Blanks(p.between) + CloseFrom(p, d, rest)))))
  }

  function CloseFrom(p: Piece, d: Delims, rest: string): string
    requires p.Switch?
  {
    p.close + Blanks(p.after) + ("=" + (d.close + rest))
  }

  lemma Regroup(p: Piece, d: Delims, rest: string)
    requires p.Switch?
    ensures RenderPiece(p, d) + rest == SwitchFrom(p, d, rest)
  {
    hide Blanks;
    var t7 := d.close + rest;
    var t6 := "=" + t7;
    var t5 := CloseFrom(p, d, rest);
    var t4 := Blanks(p.between) + t5;
    var t3 := p.open + t4;
    var h1 := d.open + "=";
    var h2 := h1 + Blanks(p.before);
    var h3 := h2 + p.open;
    var h4 := h3 + Blanks(p.between);
    var h5 := h4 + p.close;
    var h6 := h5 + Blanks(p.after);
    Assoc(h6 + "=", d.close, rest);
    Assoc(h6, "=", t7);
    Assoc(h5, Blanks(p.after), t6);
    Assoc(h4, p.close, Blanks(p.after) + t6);
    Assoc(p.close, Blanks(p.after), t6);
    Assoc(h3, Blanks(p.between), t5);
    Assoc(h2, p.open, t4);
    Assoc(h1, Blanks(p.before), t3);
    Assoc(d.open, "=", Blanks(p.before) + t3);
  }

  lemma SwitchMeaning(p: Piece, rest: string, d: Delims)
    requires ValidDelims(d) && p.Switch? && WellFormedPiece(p, rest, d)
    ensures SwitchAhead(RenderPiece(p, d) + rest, d)
    ensures ReadSwitch(RenderPiece(p, d) + rest, d) == Switched(After(p, d), rest)
  {
    hide ReadClose, SkipSpaces, Until, Blanks, CloseFrom;
    Regroup(p, d, rest);
    var s := SwitchFrom(p, d, rest);
    var b := Blanks(p.between) + CloseFrom(p, d, rest);
    var a := p.open + b;
    assert s[|d.open| + 1..] == Blanks(p.before) + a;
    assert s[..|d.open|] == d.open && s[|d.open|] == '=';
    SkipBlanksOf(p.before, a);
    assert b[0] == ' ';
    UntilIs(a, ' ', |p.open|);
    assert a[..|p.open|] == p.open && a[|p.open|..] == b;
    ReadCloseMeaning(p, rest, d);
    CloseLength(p, d, rest);
  }

  lemma CloseLength(p: Piece, d: Delims, rest: string)
    requires p.Switch?
    ensures |CloseFrom(p, d, rest)| == |p.close| + p.after + 1 + |d.close| + |rest|
  {
  }

  lemma ReadCloseMeaning(p: Piece, rest: string, d: Delims)
    requires d.close != [] && p.Switch? && WellFormedPiece(p, rest, d)
    ensures ReadClose(p.open, Blanks(p.between) + CloseFrom(p, d, rest), d.close) == Switched(After(p, d), rest)
  {
    hide SkipSpaces, Until, Blanks, TrimEnd;
    var c, e := CloseFrom(p, d, rest), d.close + rest;
    SkipBlanksOf(p.between, c);
    CloseMeaning(p, c, e, d);
    assert e[..|d.close|] == d.close && e[|d.close|..] == rest;
  }

  lemma CloseMeaning(p: Piece, c: string, e: string, d: Delims)
    requires p.Switch? && WellFormedPiece(p, [], d)
    requires c == p.close + Blanks(p.after) + ("=" + e)
    ensures Until(c, '=') == p.close + Blanks(p.after) && TrimEnd(p.close + Blanks(p.after)) == p.close
    ensures |c| > |p.close + Blanks(p.after)| && c[|p.close + Blanks(p.after)| + 1..] == e
  {
    var close := p.close + Blanks(p.after);
    UntilIs(c, '=', |close|);
    assert c[..|close|] == close;
    TrimEndIs(close, |p.close|);
    assert close[..|p.close|] == p.close;
    assert c[|close| + 1..] == e;
  }

  lemma TagMeaning(body: string, rest: string, d: Delims)
    requires ValidDelims(d) && WellFormedPiece(Tag(body), rest, d)
    ensures Outside(d.open + body + d.close + rest, d) == Emit("{{" + body + "}}", Outside(rest, d))
  {
    var s := d.open + body + d.close + rest;
    assert s[..|d.open|] == d.open && s[|d.open|] == body[0];
    assert s[|d.open|..] == body + d.close + rest;
    BodyMeaning(body, rest, d);
    EmitTwice("{{", body + "}}", Outside(rest, d));
    assert "{{" + (body + "}}") == "{{" + body + "}}";
  }

  /** What follows a text begins with the opening delimiter or is empty. */
  lemma RestOfText(doc: seq<Piece>, d: Delims)
    requires Shaped(doc) && (doc != [] ==> !doc[0].Text?)
    ensures Render(doc, d) == [] || d.open <= Render(doc, d)
  {
  }

  /** Scanning the rendering of a document gives the document in {{ }} form. */
  lemma {:induction false} ScanUndoesRender(doc: seq<Piece>, d: Delims)
    requires Shaped(doc) && ValidDelims(d) && WellFormed(doc, d)
    ensures Outside(Render(doc, d), d) == Done(Canonical(doc, d))
    decreases |doc|
  {
    if doc != [] {
      var p, d' := doc[0], After(doc[0], d);
      var rest := Render(doc[1..], d');
      ScanUndoesRender(doc[1..], d');
      match p
      case Text(s) =>
        RestOfText(doc[1..], d);
        TextMeaning(s, rest, d);
      case Tag(body) =>
        TagMeaning(body, rest, d);
      case Switch(open, close, _, _, _) =>
        SwitchMeaning(p, rest, d);
        assert (RenderPiece(p, d) + rest)[0] == d.open[0];
    }
  }

  /** The same for the entry point, with explicit or default delimiters. */
  lemma PreprocessUndoesRender(doc: seq<Piece>, open: Option<string>, close: Option<string>)
    requires open != Some("") && close != Some("") && (open.Some? ==> open.value[0] != '\\')
    requires Shaped(doc) && WellFormed(doc, Initial(open, close))
    ensures Preprocess(Render(doc, Initial(open, close)), open, close) == Done(Canonical(doc, Initial(open, close)))
  {
    ScanUndoesRender(doc, Initial(open, close));
  }

  // ---- templates that come back unchanged

  const DEFAULT: Delims := Delims("{{", "}}", false)

  /** Walking as the scanner does, nothing is met that it rewrites. */
  predicate Clean(s: string, inTag: bool)
    decreases |s|
  {
    if s == [] then true
    else if inTag then if "}}" <= s then Clean(s[2..], false) else Clean(s[1..], true)
    else if s[0] == '\\' then |s| > 1 && Clean(s[2..], false)
    else if "{{" <= s then |s| >= 5 && !(|s| >= 8 && s[2] == '=') && Clean(s[2..], true)
    else Clean(s[1..], false)
  }

  lemma EmitIsPrefix(a: string, o: Outcome, s: string, n: nat)
    requires n <= |s| && a == s[..n]
    ensures Emit(a, o) == Done(s) <==> o == Done(s[n..])
  {
    assert s == s[..n] + s[n..];
    if o.Done? && a + o.text == s { assert o.text == s[n..]; }
  }

  lemma EmitIsNot(a: string, o: Outcome, s: string, n: nat)
    requires n < |a| && (n >= |s| || a[n] != s[n])
    ensures Emit(a, o) != Done(s)
  {
    if o.Done? { assert (a + o.text)[n] == a[n]; }
  }

  lemma SwitchIsRewritten(s: string)
    requires SwitchAhead(s, DEFAULT) && s[0] != '\\'
    ensures Outside(s, DEFAULT) != Done(s)
  {
    hide ReadSwitch;
    var r := ReadSwitch(s, DEFAULT);
    if r.Switched? {
      var tag := SetTag(r.d.open, r.d.close);
      assert tag[2] == 'h';
      EmitIsNot(tag, Outside(r.rest, r.d), s, 2);
    }
  }

  /** Under the default delimiters a template is left alone if and only if the walk is clean. */
  lemma {:induction false} UnchangedExactly(s: string, inTag: bool)
    ensures (if inTag then Inside(s, DEFAULT) else Outside(s, DEFAULT)) == Done(s) <==> Clean(s, inTag)
    decreases |s|
  {
    hide ReadSwitch, SetTag, Emit;
    var d := DEFAULT;
    if s == [] {
    } else if inTag {
      if "}}" <= s {
        EmitIsPrefix("}}", Outside(s[2..], d), s, 2);
        UnchangedExactly(s[2..], false);
      } else {
        EmitIsPrefix([s[0]], Inside(s[1..], d), s, 1);
        UnchangedExactly(s[1..], true);
      }
    } else if s[0] == '\\' {
      var a := ['\\', At(s, 1)];
      if |s| > 1 {
        assert a == s[..2];
        EmitIsPrefix(a, Outside(s[2..], d), s, 2);
        UnchangedExactly(s[2..], false);
      } else {
        EmitIsNot(a, Outside([], d), s, 1);
      }
    } else if SwitchAhead(s, d) {
      SwitchIsRewritten(s);
    } else if TagAhead(s, d) {
      EmitIsPrefix("{{", Inside(s[2..], d), s, 2);
      UnchangedExactly(s[2..], true);
    } else if "{{" <= s {
      EmitIsNot(['\\'] + [s[0]], Outside(s[1..], d), s, 0);
    } else {
      assert [] + [s[0]] == s[..1];
      EmitIsPrefix([] + [s[0]], Outside(s[1..], d), s, 1);
      UnchangedExactly(s[1..], false);
    }
  }

  lemma {:induction false} CleanWithoutSwitch(s: string, inTag: bool)
    requires forall k :: 0 <= k < |s| - 2 ==> !(s[k] == '{' && s[k + 1] == '{' && s[k + 2] == '=')
    requires forall k :: 0 <= k < |s| - 1 && |s| - 4 <= k ==> !(s[k] == '{' && s[k + 1] == '{')
    requires s != [] ==> s[|s| - 1] != '\\'
    ensures Clean(s, inTag)
    decreases |s|
  {
    if s != [] {
      CleanWithoutSwitch(s[1..], inTag);
      CleanWithoutSwitch(s[1..], true);
      if |s| >= 2 {
        CleanWithoutSwitch(s[2..], false);
        CleanWithoutSwitch(s[2..], true);
      }
    }
  }

  /**
   A template without {{=, without {{ among its last four characters and without a backslash at its end
   comes back unchanged, whether or not its tags are closed.
   */
  lemma DefaultIdentity(tmpl: string)
    requires forall k :: 0 <= k < |tmpl| - 2 ==> !(tmpl[k] == '{' && tmpl[k + 1] == '{' && tmpl[k + 2] == '=')
    requires forall k :: 0 <= k < |tmpl| - 1 && |tmpl| - 4 <= k ==> !(tmpl[k] == '{' && tmpl[k + 1] == '{')
    requires tmpl != [] ==> tmpl[|tmpl| - 1] != '\\'
    ensures Preprocess(tmpl, None, None) == Done(tmpl)
  {
    CleanWithoutSwitch(tmpl, false);
    UnchangedExactly(tmpl, false);
  }
}

/**
 src/handlebars_delimiters.c: rewriting a template with custom delimiters into one with {{ and }}.
 The scanner is proved to compute a recursive reading of the template, and that reading to undo a renderer.
 */
module Delimiters {
  import opened Options

  datatype Outcome = Done(text: string) | Failed(message: string) | Fault

  const NO_SPACE := "Delimiter change must contain a space"
  const NO_EQUALS := "Delimiter change must contain two equals"
  const NO_END := "Delimiter change must end with an equals"

  /** The delimiters in force. bracket is set only when the opening one was given explicitly and starts with a brace. */
  datatype Delims = Delims(open: string, close: string, bracket: bool)

  /** The byte a string holds at n; the byte after the last one is 0. */
  function At(s: string, n: nat): char
    requires n <= |s|
  {
    if n == |s| then '\0' else s[n]
  }

  function Emit(text: string, o: Outcome): Outcome {
    if o.Done? then Done(text + o.text) else o
  }

  function SkipSpaces(s: string): (r: string)
    ensures |r| <= |s|
    ensures r != [] ==> r[0] != ' '
  {
    if s != [] && s[0] == ' ' then SkipSpaces(s[1..]) else s
  }

  /** The part of s in front of the first c; all of s if there is none. */
  function Until(s: string, c: char): (r: string)
    ensures r <= s
    ensures forall k :: 0 <= k < |r| ==> r[k] != c
    ensures |r| < |s| ==> s[|r|] == c
  {
    if s == [] || s[0] == c then [] else [s[0]] + Until(s[1..], c)
  }

  function TrimEnd(s: string): (r: string)
    ensures r <= s
    ensures r != [] ==> r[|r| - 1] != ' '
    ensures s != [] && s[0] != ' ' ==> r != []
  {
    if s != [] && s[|s| - 1] == ' ' then TrimEnd(s[..|s| - 1]) else s
  }

  function AddSlashes(s: string): string {
    if s == [] then [] else (if s[0] == '"' then ['\\', '"'] else [s[0]]) + AddSlashes(s[1..])
  }

  function SetTag(open: string, close: string): string {
    "{{hbsc_set_delimiters \"" + AddSlashes(open) + "\" \"" + AddSlashes(close) + "\"}}"
  }

  predicate SwitchAhead(s: string, d: Delims) {
    |s| >= |d.open| + |d.close| + 4 && d.open <= s && s[|d.open|] == '='
  }

  predicate TagAhead(s: string, d: Delims) {
    |s| >= |d.open| + |d.close| + 1 && d.open <= s
  }

  /** What a delimiter switch is read as: the new delimiters and the rest of the template. */
  datatype Reading = Switched(d: Delims, rest: string) | Bad(o: Outcome)

  function ReadSwitch(s: string, d: Delims): (r: Reading)
    requires d.open != [] && |s| > |d.open|
    ensures r.Switched? ==> |r.rest| < |s| && r.d.open != [] && r.d.close != []
    ensures r.Bad? ==> !r.o.Done?
  {
    var a := SkipSpaces(s[|d.open| + 1..]);
    var open := Until(a, ' ');
    if |open| == |a| then Bad(Failed(NO_SPACE)) else ReadClose(open, a[|open|..], d.close)
  }

  /** The second half of a switch: the new closing delimiter, an equals sign and the old one, end. */
  function ReadClose(open: string, s: string, end: string): (r: Reading)
    requires open != []
    ensures r.Switched? ==> |r.rest| < |s| && r.d.open == open && r.d.close != []
    ensures r.Bad? ==> !r.o.Done?
  {
    var b := SkipSpaces(s);
    var close := Until(b, '=');
    if |close| == |b| then Bad(Failed(NO_EQUALS))
    else if close == [] then Bad(Fault)
    else
      var e := b[|close| + 1..];
      if !(end <= e) then Bad(Failed(NO_END))
      else Switched(Delims(open, TrimEnd(close), open[0] == '{'), e[|end|..])
  }

  /** How the text from s on is rewritten outside of tags. */
  function Outside(s: string, d: Delims): Outcome
    requires d.open != [] && d.close != []
    decreases |s|, 1
  {
    if s == [] then Done([])
    else if s[0] == '\\' then Emit(['\\', At(s, 1)], Outside(if |s| > 1 then s[2..] else [], d))
    else if SwitchAhead(s, d) then
      match ReadSwitch(s, d)
      case Switched(d', rest) => Emit(SetTag(d'.open, d'.close), Outside(rest, d'))
      case Bad(o) => o
    else if TagAhead(s, d) then Emit("{{", Inside(s[|d.open|..], d))
    else
      Emit((if |s| >= 2 && s[0] == '{' && s[1] == '{' && !d.bracket then ['\\'] else []) + [s[0]], Outside(s[1..], d))
  }

  /** How the text from s on is rewritten inside a tag. */
  function Inside(s: string, d: Delims): Outcome
    requires d.open != [] && d.close != []
    decreases |s|, 0
  {
    if s == [] then Done([])
    else if d.close <= s then Emit("}}", Outside(s[|d.close|..], d))
    else Emit([s[0]], Inside(s[1..], d))
  }

  /** The whole template; the opening delimiter counts as a brace only if it is given. */
  function Preprocess(tmpl: string, open: Option<string>, close: Option<string>): Outcome
    requires open != Some("") && close != Some("")
  {
    Outside(tmpl, Initial(open, close))
  }

  function Initial(open: Option<string>, close: Option<string>): (d: Delims)
    requires open != Some("") && close != Some("")
    ensures d.open != [] && d.close != []
  {
    Delims(open.GetOr("{{"), close.GetOr("}}"), open.Some? && open.value[0] == '{')
  }

  // ---- the scanner

  datatype State = Default | InSwitch | InTag

  /** What is still to be written from position p on, in the given state. */
  ghost function Rest(tmpl: string, p: nat, state: State, d: Delims): Outcome
    requires d.open != [] && d.close != []
  {
    if p >= |tmpl| then Done([])
    else if state == InTag then Inside(tmpl[p..], d) else Outside(tmpl[p..], d)
  }

  lemma {:induction false} SkipSpacesIs(s: string, n: nat)
    requires n <= |s| && forall k :: 0 <= k < n ==> s[k] == ' '
    requires n < |s| ==> s[n] != ' '
    ensures SkipSpaces(s) == s[n..]
  {
    if n > 0 { SkipSpacesIs(s[1..], n - 1); }
  }

  lemma {:induction false} UntilIs(s: string, c: char, n: nat)
    requires n <= |s| && forall k :: 0 <= k < n ==> s[k] != c
    requires n < |s| ==> s[n] == c
    ensures Until(s, c) == s[..n]
  {
    if n > 0 {
      UntilIs(s[1..], c, n - 1);
      assert s[..n] == [s[0]] + s[1..][..n - 1];
    }
  }

  lemma {:induction false} TrimEndIs(s: string, n: nat)
    requires n <= |s| && forall k :: n <= k < |s| ==> s[k] == ' '
    requires n > 0 ==> s[n - 1] != ' '
    ensures TrimEnd(s) == s[..n]
  {
    if n < |s| {
      TrimEndIs(s[..|s| - 1], n);
      assert s[..|s| - 1][..n] == s[..n];
    } else {
      assert s[..n] == s;
    }
  }

  method SkipBlanks(tmpl: string, p: nat, i: nat) returns (p': nat, i': nat)
    requires p + i == |tmpl|
    ensures p' + i' == |tmpl| && p <= p'
    ensures tmpl[p'..] == SkipSpaces(tmpl[p..])
  {
    p', i' := p, i;
    while i' > 0 && tmpl[p'] == ' '
      invariant p' + i' == |tmpl| && p <= p'
      invariant forall k :: p <= k < p' ==> tmpl[k] == ' '
    {
      i', p' := i' - 1, p' + 1;
    }
    SkipSpacesIs(tmpl[p..], p' - p);
  }

  method SkipTo(tmpl: string, p: nat, i: nat, c: char) returns (p': nat, i': nat)
    requires p + i == |tmpl|
    ensures p' + i' == |tmpl| && p <= p'
    ensures Until(tmpl[p..], c) == tmpl[p..p'] && (i' > 0 ==> tmpl[p'] == c)
  {
    p', i' := p, i;
    while i' > 0 && tmpl[p'] != c
      invariant p' + i' == |tmpl| && p <= p'
      invariant forall k :: p <= k < p' ==> tmpl[k] != c
    {
      i', p' := i' - 1, p' + 1;
    }
    UntilIs(tmpl[p..], c, p' - p);
  }

  /** From pc up to before q: the text without the blanks at its end, found by scanning backwards. */
  method WithoutBlanks(tmpl: string, pc: nat, q: nat) returns (text: string)
    requires pc < q <= |tmpl| && tmpl[pc] != ' '
    ensures text == TrimEnd(tmpl[pc..q])
  {
    var pce := q - 1;
    while tmpl[pce] == ' '
      invariant pc <= pce < q
      invariant forall k :: pce < k < q ==> tmpl[k] == ' '
      decreases pce
    {
      pce := pce - 1;
    }
    text := tmpl[pc..pce + 1];
    TrimEndIs(tmpl[pc..q], pce + 1 - pc);
  }

  /** The new opening delimiter is t[po..q]. */
  lemma ReadOpenIs(t: string, p: nat, d: Delims, po: nat, q: nat)
    requires p <= |t| && d.open != [] && d.close != [] && SwitchAhead(t[p..], d)
    requires p + |d.open| + 1 <= po <= q <= |t|
    requires t[po..] == SkipSpaces(t[p + |d.open| + 1..]) && Until(t[po..], ' ') == t[po..q]
    ensures q < |t| ==> po < q
    ensures ReadSwitch(t[p..], d) == if q == |t| then Bad(Failed(NO_SPACE)) else ReadClose(t[po..q], t[q..], d.close)
  {
    hide SkipSpaces, Until, TrimEnd, ReadClose;
    var a, open := t[po..], t[po..q];
    assert t[p..][|d.open| + 1..] == t[p + |d.open| + 1..];
    if q < |t| {
      assert a[|open|..] == t[q..] && a[|open|] == t[q];
    }
  }

  /** The new closing delimiter with the blanks behind it is t[pc..e]. */
  lemma ReadCloseIs(t: string, open: string, q: nat, pc: nat, e: nat, end: string)
    requires open != [] && q <= pc <= e <= |t|
    requires t[pc..] == SkipSpaces(t[q..]) && Until(t[pc..], '=') == t[pc..e]
    ensures pc < |t| ==> t[pc] != ' '
    ensures ReadClose(open, t[q..], end) ==
      if e == |t| then Bad(Failed(NO_EQUALS))
      else if pc == e then Bad(Fault)
      else if !(end <= t[e + 1..]) then Bad(Failed(NO_END))
      else Switched(Delims(open, TrimEnd(t[pc..e]), open[0] == '{'), t[e + 1 + |end|..])
  {
    hide SkipSpaces, Until, TrimEnd;
    var b, close := t[pc..], t[pc..e];
    if pc < |t| { assert b[0] == t[pc]; }
    if e < |t| {
      var rest := t[e + 1..];
      assert b[|close| + 1..] == rest;
      if end <= rest { assert rest[|end|..] == t[e + 1 + |end|..]; }
    }
  }

  /** The switch state: from the opening delimiter at p to behind the closing one. */
  method ScanSwitch(tmpl: string, p: nat, i: nat, d: Delims) returns (r: Reading, p': nat, i': nat)
    requires p + i == |tmpl| && d.open != [] && d.close != []
    requires SwitchAhead(tmpl[p..], d)
    ensures p' + i' == |tmpl| && p <= p'
    ensures r.Switched? ==> r.rest == tmpl[p'..] && p' > p && r.d.open != [] && r.d.close != []
    ensures r == ReadSwitch(tmpl[p..], d)
  {
    hide SkipSpaces, Until, TrimEnd, ReadSwitch, ReadClose;
    p', i' := p + |d.open| + 1, i - |d.open| - 1;
    p', i' := SkipBlanks(tmpl, p', i');
    var po := p';
    p', i' := SkipTo(tmpl, p', i', ' ');
    ghost var q1 := p';
    ReadOpenIs(tmpl, p, d, po, q1);
    if i' <= 0 {
      return Bad(Failed(NO_SPACE)), p', i';
    }
    var newOpen := tmpl[po..p'];
    p', i' := SkipBlanks(tmpl, p', i');
    var pc := p';
    p', i' := SkipTo(tmpl, p', i', '=');
    ReadCloseIs(tmpl, newOpen, q1, pc, p', d.close);
    if i' <= 0 {
      return Bad(Failed(NO_EQUALS)), p', i';
    }
    // the backward scan of an empty delimiter would start in front of it
    if p' == pc {
      return Bad(Fault), p', i';
    }
    var newClose := WithoutBlanks(tmpl, pc, p');
    p', i' := p' + 1, i' - 1;
    if i' < |d.close| || tmpl[p'..p' + |d.close|] != d.close {
      return Bad(Failed(NO_END)), p', i';
    }
    p', i' := p' + |d.close|, i' - |d.close|;
    r := Switched(Delims(newOpen, newClose, newOpen[0] == '{'), tmpl[p'..]);
  }

  lemma EmitTwice(a: string, b: string, o: Outcome)
    ensures Emit(a, Emit(b, o)) == Emit(a + b, o)
  {
    if o.Done? { assert a + (b + o.text) == a + b + o.text; }
  }

  lemma OutsideSlash(t: string, p: nat, d: Delims)
    requires d.open != [] && d.close != [] && p < |t| && t[p] == '\\'
    ensures Rest(t, p, Default, d) == Emit([t[p]] + [At(t, p + 1)], Rest(t, p + 2, Default, d))
  {
    var s := t[p..];
    var rest := if |s| > 1 then s[2..] else [];
    assert ['\\', At(s, 1)] == [t[p]] + [At(t, p + 1)];
    assert Outside(s, d) == Emit(['\\', At(s, 1)], Outside(rest, d));
    if |s| > 2 { assert rest == t[p + 2..]; } else { assert Outside(rest, d) == Done([]); }
  }

  lemma OutsideTag(t: string, p: nat, d: Delims)
    requires d.open != [] && d.close != [] && p < |t| && t[p] != '\\'
    requires !SwitchAhead(t[p..], d) && TagAhead(t[p..], d)
    ensures Rest(t, p, Default, d) == Emit("{{", Rest(t, p + |d.open|, InTag, d))
  {
    assert t[p..][|d.open|..] == t[p + |d.open|..];
  }

  lemma OutsideText(t: string, p: nat, d: Delims)
    requires d.open != [] && d.close != [] && p < |t| && t[p] != '\\' && !TagAhead(t[p..], d)
    ensures var slash := if |t| - p >= 2 && t[p] == '{' && t[p + 1] == '{' && !d.bracket then ['\\'] else [];
      Rest(t, p, Default, d) == Emit(slash + [t[p]], Rest(t, p + 1, Default, d))
  {
    assert t[p..][1..] == t[p + 1..];
    if p + 1 == |t| { assert Outside(t[p + 1..], d) == Done([]); }
  }

  lemma OutsideSwitch(t: string, p: nat, d: Delims, r: Reading, p': nat)
    requires d.open != [] && d.close != [] && p < |t| && t[p] != '\\' && SwitchAhead(t[p..], d)
    requires r == ReadSwitch(t[p..], d) && (r.Switched? ==> p' <= |t| && r.rest == t[p'..])
    ensures Rest(t, p, Default, d) ==
      if r.Bad? then r.o else Emit(SetTag(r.d.open, r.d.close), Rest(t, p', Default, r.d))
  {
    if r.Switched? && p' == |t| { assert Outside(t[p'..], r.d) == Done([]); }
  }

  lemma InsideEnd(t: string, p: nat, d: Delims)
    requires d.open != [] && d.close != [] && p < |t| && d.close <= t[p..]
    ensures Rest(t, p, InTag, d) == Emit("}}", Rest(t, p + |d.close|, Default, d))
  {
    assert t[p..][|d.close|..] == t[p + |d.close|..];
    if p + |d.close| == |t| { assert Outside(t[p + |d.close|..], d) == Done([]); }
  }

  lemma InsideText(t: string, p: nat, d: Delims)
    requires d.open != [] && d.close != [] && p < |t| && !(d.close <= t[p..])
    ensures Rest(t, p, InTag, d) == Emit([t[p]], Rest(t, p + 1, InTag, d))
  {
    assert t[p..][1..] == t[p + 1..];
    if p + 1 == |t| { assert Inside(t[p + 1..], d) == Done([]); }
  }

  /** handlebars_preprocess_delimiters. Jumping to a state is coming round again without moving on. */
  method PreprocessDelimiters(tmpl: string, open: Option<string>, close: Option<string>) returns (r: Outcome)
    requires open != Some("") && close != Some("")
    ensures r == Preprocess(tmpl, open, close)
  {
    hide Rest, Outside, Inside, ReadSwitch, SetTag, Emit;
    var i: int, p: nat := |tmpl|, 0;
    var d := Initial(open, close);
    var state := Default;
    var newTmpl := "";
    StartRest(tmpl, d);
    while i > 0
      invariant p + i == |tmpl|
      invariant d.open != [] && d.close != []
      invariant state == InSwitch ==> i <= 0
      invariant Preprocess(tmpl, open, close) == Emit(newTmpl, Rest(tmpl, p, state, d))
      decreases i
    {
      if state == Default {
        if tmpl[p] == '\\' {
          OutsideSlash(tmpl, p, d);
          EmitTwice(newTmpl, [tmpl[p]] + [At(tmpl, p + 1)], Rest(tmpl, p + 2, Default, d));
          newTmpl := newTmpl + ([tmpl[p]] + [At(tmpl, p + 1)]);
          p, i := p + 2, i - 2;
        } else if i >= |d.open| + |d.close| + 4 && tmpl[p..p + |d.open|] == d.open && tmpl[p + |d.open|] == '=' {
          state := InSwitch;
          ghost var p0 := p;
          var reading;
          reading, p, i := ScanSwitch(tmpl, p, i, d);
          OutsideSwitch(tmpl, p0, d, reading, p);
          if reading.Bad? {
            EmitBad(newTmpl, reading.o);
            return reading.o;
          }
          d := reading.d;
          EmitTwice(newTmpl, SetTag(d.open, d.close), Rest(tmpl, p, Default, d));
          newTmpl := newTmpl + SetTag(d.open, d.close);
          if i > 0 {
            state := Default;
          } else {
            RestEmpty(tmpl, p, state, d);
          }
        } else if i >= |d.open| + |d.close| + 1 && tmpl[p..p + |d.open|] == d.open {
          OutsideTag(tmpl, p, d);
          EmitTwice(newTmpl, "{{", Rest(tmpl, p + |d.open|, InTag, d));
          newTmpl := newTmpl + "{{";
          p, i := p + |d.open|, i - |d.open|;
          state := InTag;
        } else {
          OutsideText(tmpl, p, d);
          var slash := if i >= 2 && tmpl[p] == '{' && tmpl[p + 1] == '{' && !d.bracket then ['\\'] else [];
          EmitTwice(newTmpl, slash + [tmpl[p]], Rest(tmpl, p + 1, Default, d));
          newTmpl := newTmpl + (slash + [tmpl[p]]);
          p, i := p + 1, i - 1;
        }
      } else {
        if i >= |d.close| && tmpl[p..p + |d.close|] == d.close {
          InsideEnd(tmpl, p, d);
          EmitTwice(newTmpl, "}}", Rest(tmpl, p + |d.close|, Default, d));
          newTmpl := newTmpl + "}}";
          p, i := p + |d.close|, i - |d.close|;
          if i > 0 {
            state := Default;
          } else {
            RestEmpty(tmpl, p, state, d);
          }
        } else {
          InsideText(tmpl, p, d);
          EmitTwice(newTmpl, [tmpl[p]], Rest(tmpl, p + 1, InTag, d));
          newTmpl := newTmpl + [tmpl[p]];
          p, i := p + 1, i - 1;
        }
      }
    }
    RestEmpty(tmpl, p, state, d);
    EmitNothing(newTmpl);
    r := Done(newTmpl);
  }

  lemma StartRest(t: string, d: Delims)
    requires d.open != [] && d.close != []
    ensures Outside(t, d) == Emit("", Rest(t, 0, Default, d))
  {
    assert t[0..] == t;
    var o := Outside(t, d);
    if o.Done? { assert "" + o.text == o.text; }
  }

  lemma RestEmpty(t: string, p: nat, state: State, d: Delims)
    requires d.open != [] && d.close != [] && p >= |t|
    ensures Rest(t, p, state, d) == Done([]) && Rest(t, p, Default, d) == Done([])
  {
  }

  lemma EmitNothing(a: string)
    ensures Emit(a, Done([])) == Done(a)
  {
    assert a + [] == a;
  }

  lemma EmitBad(a: string, o: Outcome)
    requires !o.Done?
    ensures Emit(a, o) == o
  {
  }
}

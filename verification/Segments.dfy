/** What the segments of a path make of it, whatever way they are stored (handlebars_ast_helper_prepare_path). */
module Segments {
  import opened Options
  import opened Ast

  /** A segment: its text, whether it was written in brackets, and what stood in front of it. */
  datatype Seg = Seg(part: Option<string>, literal: bool, separator: Option<string>) {
    /** .., . or this, not written as a literal. */
    predicate IsDots() {
      part.Some? && !literal && (part.value == ".." || part.value == "." || part.value == "this")
    }

    predicate IsParent() {
      IsDots() && part.value == ".."
    }

    predicate IsOrdinary() {
      part.Some? && !IsDots()
    }

    function Text(): string {
      if part.None? then "" else separator.GetOr("") + part.value
    }
  }

  /** A path that climbs after it has descended. */
  predicate Misplaced(s: seq<Seg>) {
    exists a, b :: 0 <= a < b < |s| && s[a].IsOrdinary() && s[b].IsDots()
  }

  function Parents(s: seq<Seg>): nat {
    if s == [] then 0 else Parents(s[..|s| - 1]) + if s[|s| - 1].IsParent() then 1 else 0
  }

  function Texts(s: seq<Seg>): string {
    if s == [] then "" else Texts(s[..|s| - 1]) + s[|s| - 1].Text()
  }

  /** The names a path goes through: the texts of the segments that are not dots. */
  function Names(s: seq<Seg>): seq<string> {
    if s == [] then []
    else Names(s[..|s| - 1]) + if s[|s| - 1].IsDots() then [] else [s[|s| - 1].part.GetOr("")]
  }

  predicate AnyOrdinary(s: seq<Seg>) {
    exists n :: 0 <= n < |s| && s[n].IsOrdinary()
  }

  /** The path the segments stand for, if they stand for one. */
  function Build(s: seq<Seg>, data: bool): Option<Path> {
    if Misplaced(s) then None
    else Some(Path(Names(s), (if data then "@" else "") + Texts(s), Parents(s), data))
  }

  /** Up to n there is no ordinary segment, from n on there are no dots. */
  ghost predicate DotsUpTo(s: seq<Seg>, n: nat) {
    n <= |s| && (forall k :: 0 <= k < n ==> !s[k].IsOrdinary()) && (forall k :: n <= k < |s| ==> !s[k].IsDots())
  }

  /** A path is well placed if and only if its dots all come first. */
  lemma {:induction false} WellPlacedSplits(s: seq<Seg>)
    ensures !Misplaced(s) <==> exists n: nat :: DotsUpTo(s, n)
  {
    if s == [] {
      assert DotsUpTo(s, 0);
    } else if !Misplaced(s) {
      var t, last := s[..|s| - 1], |s| - 1;
      if s[last].IsDots() {
        assert DotsUpTo(s, |s|);
      } else {
        assert s == t + [s[last]];
        MisplacedPrefix(t, [s[last]]);
        WellPlacedSplits(t);
        var n: nat :| DotsUpTo(t, n);
        assert DotsUpTo(s, n);
      }
    }
  }

  /** What one more segment changes. */
  lemma OneMore(s: seq<Seg>, n: nat)
    requires n < |s|
    ensures Names(s[..n + 1]) == Names(s[..n]) + if s[n].IsDots() then [] else [s[n].part.GetOr("")]
    ensures Parents(s[..n + 1]) == Parents(s[..n]) + if s[n].IsParent() then 1 else 0
    ensures Texts(s[..n + 1]) == Texts(s[..n]) + s[n].Text()
    ensures AnyOrdinary(s[..n + 1]) <==> AnyOrdinary(s[..n]) || s[n].IsOrdinary()
    ensures Misplaced(s[..n + 1]) <==> Misplaced(s[..n]) || (AnyOrdinary(s[..n]) && s[n].IsDots())
    ensures Misplaced(s[..n + 1]) ==> Misplaced(s)
  {
    assert s[..n + 1] == s[..n] + [s[n]];
    assert s == s[..n + 1] + s[n + 1..];
    AppendedOne(s[..n], s[n]);
    MisplacedOne(s[..n], s[n]);
    MisplacedPrefix(s[..n + 1], s[n + 1..]);
  }

  lemma AppendedOne(u: seq<Seg>, x: Seg)
    ensures Names(u + [x]) == Names(u) + if x.IsDots() then [] else [x.part.GetOr("")]
    ensures Parents(u + [x]) == Parents(u) + if x.IsParent() then 1 else 0
    ensures Texts(u + [x]) == Texts(u) + x.Text()
    ensures AnyOrdinary(u + [x]) <==> AnyOrdinary(u) || x.IsOrdinary()
  {
    var t := u + [x];
    assert t[..|t| - 1] == u && t[|t| - 1] == x;
    if AnyOrdinary(u) {
      var k :| 0 <= k < |u| && u[k].IsOrdinary();
      assert t[k].IsOrdinary();
    }
  }

  lemma MisplacedOne(u: seq<Seg>, x: Seg)
    ensures Misplaced(u + [x]) <==> Misplaced(u) || (AnyOrdinary(u) && x.IsDots())
  {
    var t := u + [x];
    MisplacedPrefix(u, [x]);
    if AnyOrdinary(u) && x.IsDots() {
      var k :| 0 <= k < |u| && u[k].IsOrdinary();
      assert t[k].IsOrdinary() && t[|u|].IsDots();
    }
    if Misplaced(t) {
      var a, b :| 0 <= a < b < |t| && t[a].IsOrdinary() && t[b].IsDots();
      assert u[a].IsOrdinary();
      if b < |u| { assert u[b].IsDots(); }
    }
  }

  lemma MisplacedPrefix(u: seq<Seg>, v: seq<Seg>)
    ensures Misplaced(u) ==> Misplaced(u + v)
  {
    if Misplaced(u) {
      var a, b :| 0 <= a < b < |u| && u[a].IsOrdinary() && u[b].IsDots();
      assert (u + v)[a].IsOrdinary() && (u + v)[b].IsDots();
    }
  }
}

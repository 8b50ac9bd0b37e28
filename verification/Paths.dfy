/**
 handlebars_ast_helper_prepare_path (src/handlebars_ast_helpers.c): a path from its segments, over a list edited
 while it is walked.
 */
module Paths {
  import opened HbsString
  import opened Options
  import opened AstList
  import opened Ast
  import opened Segments

  /** A segment node: its text, the text it was written as, and what stood in front of it. */
  class Segment {
    const part: Option<HString>
    const original: HString
    const separator: Option<string>

    constructor (part: Option<HString>, original: HString, separator: Option<string>)
      ensures this.part == part && this.original == original && this.separator == separator
    {
      this.part, this.original, this.separator := part, original, separator;
    }

    /** What the node says; a segment whose text is not what was written was written as a literal. */
    function View(): Seg {
      match part
      case None => Seg(None, false, separator)
      case Some(text) => Seg(Some(text.val), !Eq(text, original), separator)
    }

    predicate IsDots() {
      View().IsDots()
    }
  }

  function Views(s: seq<Segment>): (r: seq<Seg>)
    ensures |r| == |s| && forall n :: 0 <= n < |s| ==> r[n] == s[n].View()
  {
    seq(|s|, n requires 0 <= n < |s| => s[n].View())
  }

  /** What is left of the list. */
  function Kept(s: seq<Segment>): seq<Segment> {
    if s == [] then []
    else Kept(s[..|s| - 1]) + if s[|s| - 1].IsDots() then [] else [s[|s| - 1]]
  }

  /** What a path node with these segments names. */
  function Parts(s: seq<Segment>): (r: seq<string>)
    ensures |r| == |s| && forall n :: 0 <= n < |s| ==> r[n] == s[n].View().part.GetOr("")
  {
    seq(|s|, n requires 0 <= n < |s| => s[n].View().part.GetOr(""))
  }

  lemma {:induction false} KeptNames(s: seq<Segment>)
    ensures Parts(Kept(s)) == Names(Views(s))
  {
    if s != [] {
      var last := |s| - 1;
      KeptNames(s[..last]);
      assert Views(s)[..last] == Views(s[..last]);
    }
  }

  /** The surviving segments are the others, each as often and in the same order; none is a run of dots. */
  lemma {:induction false} KeptAreTheOthers(s: seq<Segment>)
    ensures forall x :: x in Kept(s) ==> !x.IsDots()
    ensures forall x: Segment :: !x.IsDots() ==> multiset(Kept(s))[x] == multiset(s)[x]
    ensures |Kept(s)| <= |s|
  {
    if s != [] {
      KeptAreTheOthers(s[..|s| - 1]);
      assert s == s[..|s| - 1] + [s[|s| - 1]];
    }
  }

  /** The parsed path; the node keeps the list it was made from. */
  datatype Built = Built(original: string, depth: nat, data: bool)

  function PathOf(b: Built, parts: seq<Segment>): Path {
    Path(Parts(parts), b.original, b.depth, b.data)
  }

  /** Walks the list, taking dots out as it goes; an error if dots follow an ordinary segment. */
  method PreparePath(parts: List<Segment>, data: bool) returns (r: Option<Built>)
    requires parts.Valid()
    modifies parts, parts.items
    ensures parts.Valid()
    ensures r.None? <==> Build(Views(old(parts.Contents())), data).None?
    ensures r.Some? ==> parts.Contents() == Kept(old(parts.Contents()))
    ensures r.Some? ==> Some(PathOf(r.value, parts.Contents())) == Build(Views(old(parts.Contents())), data)
  {
    hide Kept, Sofar, Walked, Within, AstList.List<Segment>.Linked, AstList.At, Segment.View, Seg.IsDots,
      Seg.IsOrdinary;
    hide Misplaced, Parents, Texts, Names;
    var original := if data then "@" else "";
    var depth, count := 0, 0;
    var item := parts.first;
    ghost var all, s := parts.items, parts.Contents();
    ghost var segs := Views(s);
    ghost var n: nat, kept: seq<Item<Segment>> := 0, [];
    Start(segs, data);
    StartWalk(parts);
    while item != null
      invariant n <= |all| == |s| && all == old(parts.items)
      invariant parts.Valid() && Walked(parts.items, kept, all, n, s) && item == At(all, n) && Within(parts.items, all)
      invariant Sofar(segs, n, data, depth, count, original)
      decreases |all| - n
    {
      StepWalk(parts, kept, all, n, s, item);
      var tmp := item.next;
      SofarOneMore(segs, n, data, depth, count, original);
      var part, separator, dots := item.data.part, item.data.separator, item.data.IsDots();
      Kinds(item.data);
      if part.Some? {
        original := original + (separator.GetOr("") + part.value.val);
      }
      if dots && count > 0 {
        return None;
      }
      kept := TakeDots(parts, kept, item, all, n, s);
      if dots {
        if part.value.val == ".." {
          depth := depth + 1;
        }
      } else if part.Some? {
        count := count + 1;
      }
      item := tmp;
      n := n + 1;
    }
    EndWalk(parts.items, kept, all, n, s);
    SofarAll(segs, data, depth, count, original);
    KeptNames(s);
    r := Some(Built(original, depth, data));
  }

  lemma Kinds(x: Segment)
    ensures x.IsDots() == x.View().IsDots()
    ensures x.IsDots() ==> x.part.Some?
    ensures x.View().IsOrdinary() <==> x.part.Some? && !x.IsDots()
    ensures x.View().part == (if x.part.Some? then Some(x.part.value.val) else None) && x.View().separator ==
      x.separator
  {
  }

  /** Takes the item the walk stands at out of the list if it is dots; otherwise it is kept. */
  method TakeDots(parts: List<Segment>, ghost kept: seq<Item<Segment>>, item: Item<Segment>,
      ghost all: seq<Item<Segment>>, ghost n: nat, ghost s: seq<Segment>)
      returns (ghost kept': seq<Item<Segment>>)
    requires parts.Valid() && Walked(parts.items, kept, all, n, s) && item == At(all, n) && Within(parts.items, all)
    modifies parts, all
    ensures parts.Valid() && Walked(parts.items, kept', all, n + 1, s) && Within(parts.items, all)
  {
    hide Kept, Walked, Within, AstList.List<Segment>.Linked;
    StepWalk(parts, kept, all, n, s, item);
    if item.data.IsDots() {
      RemoveDots(parts, kept, item, all[n + 1..], s[..n], all);
      kept' := kept;
    } else {
      kept' := kept + [item];
    }
  }

  /** After n steps the list is what was kept of the first n items and then the others. */
  ghost predicate Walked(items: seq<Item<Segment>>, kept: seq<Item<Segment>>, all: seq<Item<Segment>>, n: nat,
      s: seq<Segment>) {
    && n <= |all| && s == DataOf(all)
    && items == kept + all[n..] && DataOf(kept) == Kept(s[..n])
  }

  ghost predicate Within(items: seq<Item<Segment>>, all: seq<Item<Segment>>) {
    forall k :: 0 <= k < |items| ==> items[k] in all
  }

  lemma StartWalk(parts: List<Segment>)
    requires parts.Linked()
    ensures Within(parts.items, parts.items)
    ensures Walked(parts.items, [], parts.items, 0, parts.Contents()) && parts.first == At(parts.items, 0)
  {
    assert parts.Contents()[..0] == [];
    assert [] + parts.items[0..] == parts.items;
  }

  /** The item the walk stands at, and where it goes next whether or not that item is taken out. */
  lemma StepWalk(parts: List<Segment>, kept: seq<Item<Segment>>, all: seq<Item<Segment>>, n: nat, s: seq<Segment>,
      item: Item<Segment>)
    requires parts.Linked() && Walked(parts.items, kept, all, n, s) && item == At(all, n) && Within(parts.items, all)
    ensures n < |all| == |s| && s[n] == item.data && item.next == At(all, n + 1)
    ensures parts.items == kept + ([item] + all[n + 1..])
    ensures Within(kept + all[n + 1..], all)
    ensures DataOf(kept) == Kept(s[..n])
    ensures item.data.IsDots() ==> Walked(kept + all[n + 1..], kept, all, n + 1, s)
    ensures !item.data.IsDots() ==> Walked(parts.items, kept + [item], all, n + 1, s)
  {
    hide Kept;
    assert all[n..] == [item] + all[n + 1..];
    assert parts.items[|kept|] == item && Fits(parts.items, |kept|);
    WithinRest(parts.items, kept, item, all[n + 1..], all);
    WalkOn(parts.items, kept, all, n, s, item);
  }

  lemma WalkOn(items: seq<Item<Segment>>, kept: seq<Item<Segment>>, all: seq<Item<Segment>>, n: nat, s: seq<Segment>,
      item: Item<Segment>)
    requires Walked(items, kept, all, n, s) && n < |all| && item == all[n]
    requires items == kept + ([item] + all[n + 1..])
    ensures item.data.IsDots() ==> Walked(kept + all[n + 1..], kept, all, n + 1, s)
    ensures !item.data.IsDots() ==> Walked(items, kept + [item], all, n + 1, s)
  {
    hide Kept;
    OneMoreKept(s, n);
    assert items == kept + [item] + all[n + 1..];
    assert DataOf(kept + [item]) == DataOf(kept) + [item.data];
  }

  lemma WithinRest(items: seq<Item<Segment>>, kept: seq<Item<Segment>>, item: Item<Segment>, rest: seq<Item<Segment>>,
      all: seq<Item<Segment>>)
    requires Within(items, all) && items == kept + ([item] + rest)
    ensures Within(kept + rest, all)
  {
    var left := kept + rest;
    forall k | 0 <= k < |left| ensures left[k] in all {
      assert left[k] == items[if k < |kept| then k else k + 1];
    }
  }

  lemma EndWalk(items: seq<Item<Segment>>, kept: seq<Item<Segment>>, all: seq<Item<Segment>>, n: nat, s: seq<Segment>)
    requires Walked(items, kept, all, n, s) && At(all, n) == null
    ensures n == |s| && DataOf(items) == Kept(s)
  {
    assert s[..n] == s && all[n..] == [] && kept + [] == kept;
  }

  /** Removal by data takes out the item the walk stands at: nothing kept so far is a run of dots. */
  method RemoveDots(parts: List<Segment>, ghost kept: seq<Item<Segment>>, item: Item<Segment>,
      ghost rest: seq<Item<Segment>>, ghost seen: seq<Segment>, ghost all: seq<Item<Segment>>)
    requires parts.Valid() && parts.items == kept + ([item] + rest) && item.data.IsDots()
    requires DataOf(kept) == Kept(seen) && Within(parts.items, all)
    modifies parts, all
    ensures parts.Valid() && parts.items == kept + rest
  {
    assert Others(parts.items, |kept|, item) by {
      KeptAreTheOthers(seen);
      forall k | 0 <= k < |kept| ensures parts.items[k].data != item.data {
        assert DataOf(kept)[k] in Kept(seen);
      }
    }
    RemoveAt(parts, |kept|, item);
    assert old(parts.items)[..|kept|] == kept && old(parts.items)[|kept| + 1..] == rest;
  }

  /** Item n is the first with its data. */
  ghost predicate Others(items: seq<Item<Segment>>, n: nat, item: Item<Segment>) {
    n < |items| && items[n] == item && forall k :: 0 <= k < n ==> items[k].data != item.data
  }

  method RemoveAt(parts: List<Segment>, ghost n: nat, item: Item<Segment>)
    requires parts.Valid() && Others(parts.items, n, item)
    modifies parts, parts.items
    ensures parts.Valid() && parts.items == Cut(old(parts.items), n)
  {
    hide AstList.List<Segment>.Linked;
    assert parts.Contents()[n] == item.data;
    var removed, at := parts.Remove(item.data);
    assert at == n;
  }

  /** What the walk has gathered from the first n segments. */
  ghost predicate Sofar(s: seq<Seg>, n: nat, data: bool, depth: nat, count: nat, original: string) {
    && n <= |s| && !Misplaced(s[..n])
    && depth == Parents(s[..n]) && original == (if data then "@" else "") + Texts(s[..n])
    && (count > 0 <==> AnyOrdinary(s[..n]))
  }

  lemma Start(s: seq<Seg>, data: bool)
    ensures Sofar(s, 0, data, 0, 0, if data then "@" else "")
  {
  }

  lemma SofarAll(s: seq<Seg>, data: bool, depth: nat, count: nat, original: string)
    requires Sofar(s, |s|, data, depth, count, original)
    ensures Build(s, data) == Some(Path(Names(s), original, depth, data))
  {
    assert s[..|s|] == s;
  }

  lemma SofarOneMore(s: seq<Seg>, n: nat, data: bool, depth: nat, count: nat, original: string)
    requires n < |s| && Sofar(s, n, data, depth, count, original)
    ensures s[n].IsDots() && count > 0 ==> Build(s, data).None?
    ensures s[n].IsDots() && count == 0 ==>
      Sofar(s, n + 1, data, if s[n].part.value == ".." then depth + 1 else depth, 0,
        original + (s[n].separator.GetOr("") + s[n].part.value))
    ensures s[n].IsOrdinary() ==>
      Sofar(s, n + 1, data, depth, count + 1, original + (s[n].separator.GetOr("") + s[n].part.value))
    ensures s[n].part.None? ==> Sofar(s, n + 1, data, depth, count, original)
  {
    hide Parents, Texts, Misplaced, AnyOrdinary, Names;
    OneMore(s, n);
    var front := if data then "@" else "";
    assert front + Texts(s[..n]) + s[n].Text() == front + (Texts(s[..n]) + s[n].Text());
    assert original + "" == original;
  }

  /** What one more item leaves in the list. */
  lemma OneMoreKept(s: seq<Segment>, n: nat)
    requires n < |s|
    ensures Kept(s[..n + 1]) == Kept(s[..n]) + if s[n].IsDots() then [] else [s[n]]
  {
    assert s[..n + 1][..n] == s[..n];
  }
}

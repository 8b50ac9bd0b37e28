/**
 Where the machine keeps block parameters. It stacks them only for programs that are given some, while
 the compiler counts every enclosing program; this module says exactly when the two agree.
 */
module Slots {
  import opened Options
  import opened CodeGen
  import opened Vm
  import opened Eval

  /** Of the enclosing programs, outermost first, which were given block parameters. */
  function GivenOf(frames: seq<Frame>): (given: seq<bool>)
    ensures |given| == |frames| && forall n :: 0 <= n < |frames| ==> given[n] == frames[n].params.Some?
  {
    seq(|frames|, n requires 0 <= n < |frames| => frames[n].params.Some?)
  }

  function Count(given: seq<bool>): nat {
    if given == [] then 0 else Count(given[..|given| - 1]) + if given[|given| - 1] then 1 else 0
  }

  /** The program whose parameters lie depth levels down the machine's stack. */
  function SlotFrame(given: seq<bool>, depth: nat): Option<nat> {
    if given == [] then None
    else
      var last := |given| - 1;
      if !given[last] then SlotFrame(given[..last], depth)
      else if depth == 0 then Some(last)
      else SlotFrame(given[..last], depth - 1)
  }

  /**
   A lookup at this depth finds what it means: the slot is that of the program depth levels up if that
   program was given parameters, and there is no slot if it was not.
   */
  predicate Finds(given: seq<bool>, depth: nat) {
    depth < |given| &&
    var b := |given| - 1 - depth;
    SlotFrame(given, depth) == if given[b] then Some(b) else None
  }

  lemma {:induction false} CountParams(frames: seq<Frame>)
    ensures |ParamsOf(frames)| == Count(GivenOf(frames))
  {
    if frames != [] {
      CountParams(frames[..|frames| - 1]);
      assert GivenOf(frames)[..|frames| - 1] == GivenOf(frames[..|frames| - 1]);
    }
  }

  lemma {:induction false} SlotHoldsFrame(frames: seq<Frame>, depth: nat)
    ensures match SlotFrame(GivenOf(frames), depth)
      case None => |ParamsOf(frames)| <= depth
      case Some(n) =>
        n < |frames| && depth < |ParamsOf(frames)| && frames[n].params == Some(Top(ParamsOf(frames), depth))
  {
    if frames != [] {
      var last := |frames| - 1;
      var rest := frames[..last];
      assert GivenOf(frames)[..last] == GivenOf(rest);
      if frames[last].params.None? {
        assert ParamsOf(frames) == ParamsOf(rest);
        SlotHoldsFrame(rest, depth);
      } else if depth > 0 {
        SlotHoldsFrame(rest, depth - 1);
        assert |ParamsOf(frames)| == |ParamsOf(rest)| + 1;
      }
    }
  }

  /**
   Positions: the slot is that of the program itself if and only if it and all programs inside it were given
   parameters.
   */
  lemma {:induction false} SlotIsOwnExactly(given: seq<bool>, depth: nat)
    ensures SlotFrame(given, depth).Some? ==> SlotFrame(given, depth).value + depth < |given|
    ensures SlotFrame(given, depth) == Some(|given| - 1 - depth) <==>
      depth < |given| && forall n :: |given| - 1 - depth <= n < |given| ==> given[n]
  {
    if given != [] {
      var last := |given| - 1;
      var rest := given[..last];
      if !given[last] {
        SlotIsOwnExactly(rest, depth);
        assert depth < |given| ==> !(forall n :: last - depth <= n <= last ==> given[n]);
      } else if depth > 0 {
        SlotIsOwnExactly(rest, depth - 1);
        if depth < |given| {
          assert (forall n :: last - depth <= n <= last ==> given[n]) <==> (forall n :: last - depth <= n < last ==>
            rest[n]);
        }
      }
    }
  }

  /** Name lookup finds the parameter of the frame that resolution counted to. */
  lemma {:induction false} BoundIsResolved(frames: seq<Frame>, name: string)
    ensures match Resolve(ScopeOf(frames), name)
      case None => Bound(frames, name).None?
      case Some(r) =>
        r.depth < |frames| && Bound(frames, name) == Some(ParamOf(frames[|frames| - 1 - r.depth], r.param))
  {
    if frames != [] {
      var last := |frames| - 1;
      assert ScopeOf(frames)[..last] == ScopeOf(frames[..last]);
      BoundIsResolved(frames[..last], name);
    }
  }

  /** Where a lookup finds what it means, the indexed stack holds what name lookup finds. */
  lemma ResolveFindsBinding(frames: seq<Frame>, name: string)
    ensures Bound(frames, name).Some? <==> Resolve(ScopeOf(frames), name).Some?
    ensures Bound(frames, name).Some? ==>
      var r := Resolve(ScopeOf(frames), name).value;
      Finds(GivenOf(frames), r.depth) ==> Slot(ParamsOf(frames), r.depth, r.param) == Bound(frames, name).value
  {
    BoundIsResolved(frames, name);
    if Bound(frames, name).Some? {
      SlotHoldsFrame(frames, Resolve(ScopeOf(frames), name).value.depth);
    }
  }

  // ---- exactness

  /** Every program that is given parameters is given its own number, twice. */
  function Marked(scope: Scope, given: seq<bool>): (frames: seq<Frame>)
    requires |scope| == |given|
    ensures |frames| == |scope| && ScopeOf(frames) == scope && GivenOf(frames) == given
    ensures forall n :: 0 <= n < |frames| ==> frames[n] == Frame(scope[n], if given[n] then Some(Mark(n)) else None)
  {
    seq(|scope|, n requires 0 <= n < |scope| => Frame(scope[n], if given[n] then Some(Mark(n)) else None))
  }

  function Mark(n: nat): Value {
    VArray([VInt(n), VInt(n)])
  }

  ghost predicate LooksUpRight(frames: seq<Frame>, name: string) {
    var r := Resolve(ScopeOf(frames), name);
    r.Some? && Bound(frames, name) == Some(Slot(ParamsOf(frames), r.value.depth, r.value.param))
  }

  lemma {:induction false} ParamIsFirstOrSecond(scope: Scope, name: string)
    ensures Resolve(scope, name).Some? ==> Resolve(scope, name).value.param <= 1
  {
    if scope != [] { ParamIsFirstOrSecond(scope[..|scope| - 1], name); }
  }

  /**
   Exactness: indexing the stack finds what the name means whatever the parameters are, if and only if
   the lookup finds its program; and one choice of parameters tells.
   */
  lemma LookupExact(scope: Scope, given: seq<bool>, name: string)
    requires |scope| == |given| && Resolve(scope, name).Some?
    ensures Finds(given, Resolve(scope, name).value.depth) <==>
      forall frames :: ScopeOf(frames) == scope && GivenOf(frames) == given ==> LooksUpRight(frames, name)
    ensures Finds(given, Resolve(scope, name).value.depth) <==> LooksUpRight(Marked(scope, given), name)
  {
    var r := Resolve(scope, name).value;
    if Finds(given, r.depth) {
      forall frames | ScopeOf(frames) == scope && GivenOf(frames) == given ensures LooksUpRight(frames, name) {
        ResolveFindsBinding(frames, name);
      }
    }
    MarksTell(scope, given, name);
  }

  lemma MarksTell(scope: Scope, given: seq<bool>, name: string)
    requires |scope| == |given| && Resolve(scope, name).Some?
    ensures LooksUpRight(Marked(scope, given), name) ==> Finds(given, Resolve(scope, name).value.depth)
  {
    hide SlotFrame, Resolve, Bound, ParamsOf, ScopeOf, GivenOf;
    var r := Resolve(scope, name).value;
    var marked := Marked(scope, given);
    BoundIsResolved(marked, name);
    SlotHoldsFrame(marked, r.depth);
    SlotIsOwnExactly(given, r.depth);
    ParamIsFirstOrSecond(scope, name);
  }
}

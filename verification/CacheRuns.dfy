/** Whole runs of the in-memory cache. */
module CacheRuns {
  import opened HbsString
  import opened Options
  import opened AssocList
  import opened CacheSimple
  import MapCapacity
  import OpenAddressing
  import opened MapShape

  datatype Op =
    | FindOp(tmpl: HString, now: int)
    | AddOp(tmpl: HString, compiled: Module, gcNow: int, now: int)
    | GcOp(now: int)
    | ResetOp

  datatype Out = Found(r: Option<Module>) | Added | Threw | Collected(removed: nat) | Cleared

  /** What the cache holds, the shape of its map, when each module was last used, and the statistics. */
  datatype State = State(entries: Entries, shape: Shape, stamps: Stamps, hits: nat, misses: nat)

  predicate OverLimit(l: Limits, s: Entries) {
    ShouldGc(l, |s|, TotalSize(s))
  }

  /** sorted is a last-use order of s. Which of equal times comes first is the sort's choice. */
  ghost predicate Ordered(s: State, sorted: Entries) {
    OldestFirstOf(sorted, s.entries, s.stamps)
  }

  /** What a collection leaves, given the order it found. */
  function Left(l: Limits, stamps: Stamps, now: int, sorted: Entries): Entries {
    sorted[Evicted(l, now, sorted, stamps)..]
  }

  /** What is left when a new entry goes in: a collection comes first if a limit is exceeded. */
  function Kept(l: Limits, s: State, now: int, sorted: Entries): Entries {
    if OverLimit(l, s.entries) then Left(l, s.stamps, now, sorted) else s.entries
  }

  /** The shape of the map when a new entry goes in. */
  ghost function Room(l: Limits, s: State, now: int, sorted: Entries): Shape {
    if OverLimit(l, s.entries) then MapShape.Collected(s.shape, Evicted(l, now, sorted, s.stamps)) else s.shape
  }

  /**
   The add of a present key, without a collection in front of it, on a map whose vector is full. It throws after
   the map has been replaced and freed, and the cache goes on pointing at it.
   */
  predicate LosesMap(l: Limits, s: State, op: Op) {
    op.AddOp? && !OverLimit(l, s.entries) && Has(s.entries, op.tmpl) && s.shape.Full()
  }

  /** One operation: the state before, the order a collection found, the state after, and the answer. */
  ghost predicate Step(l: Limits, s: State, op: Op, sorted: Entries, t: State, out: Out) {
    match op
    case FindOp(tmpl, now) =>
      var r := Find(s.entries, tmpl);
      && out == Found(r) && t.entries == s.entries && t.shape == s.shape
      && t.stamps == (if r.Some? then s.stamps[r.value := now] else s.stamps)
      && t.hits == s.hits + (if r.Some? then 1 else 0) && t.misses == s.misses + (if r.Some? then 0 else 1)
    case AddOp(tmpl, compiled, gcNow, now) =>
      var kept, room, stamps := Kept(l, s, gcNow, sorted), Room(l, s, gcNow, sorted), s.stamps[compiled := now];
      && (OverLimit(l, s.entries) ==> Ordered(s, sorted))
      && if Has(kept, tmpl) then out == Threw && t == State(kept, room, stamps, s.hits, s.misses)
        else out == Added && t == State(kept + [Pair(tmpl, compiled)], Appended(room), stamps, s.hits, s.misses)
    case GcOp(now) =>
      var removed := Evicted(l, now, sorted, s.stamps);
      && Ordered(s, sorted) && out == Collected(removed)
      && t == State(Left(l, s.stamps, now, sorted), MapShape.Collected(s.shape, removed), s.stamps, s.hits, s.misses)
    case ResetOp => t == State([], NEW_SHAPE, s.stamps, 0, 0) && out == Cleared
  }

  /** states[n] is the state before operation n, orders[n] the order a collection in it found, outs[n] its answer. */
  ghost predicate Trace(l: Limits, ops: seq<Op>, states: seq<State>, orders: seq<Entries>, outs: seq<Out>) {
    && |outs| <= |ops| && |orders| == |outs| && |states| == |outs| + 1
    && forall n :: 0 <= n < |outs| ==> Step(l, states[n], ops[n], orders[n], states[n + 1], outs[n])
  }

  ghost predicate ModulesIn(s: Entries, modules: set<Module>) {
    forall x :: x in s ==> x.value in modules
  }

  ghost function StampsIn(modules: set<Module>): Stamps
    reads modules
  {
    map m: Module | m in modules :: m.ts
  }

  /** The state of a cache whose modules are all among the given ones. */
  ghost function StateOf(cache: SimpleCache, modules: set<Module>): State
    reads cache, cache.entries, cache.entries.vec, modules
    requires cache.entries.vecOffset <= cache.entries.vec.Length
  {
    State(cache.Contents(), cache.entries.ShapeNow(), StampsIn(modules), cache.hits, cache.misses)
  }

  /** No more than one entry beyond the limit, and no more than the biggest module beyond the size. */
  ghost predicate Bounded(l: Limits, s: Entries, biggest: nat) {
    (l.maxEntries > 0 ==> |s| <= l.maxEntries + 1) && (l.maxSize > 0 ==> TotalSize(s) <= l.maxSize + biggest)
  }

  // ---- properties of every trace

  lemma {:induction false} SameEviction(l: Limits, now: int, s: Entries, a: Stamps, b: Stamps)
    requires forall x :: x in s ==> Ts(a, x.value) == Ts(b, x.value)
    ensures Evicted(l, now, s, a) == Evicted(l, now, s, b)
    ensures OldestFirst(s, a) <==> OldestFirst(s, b)
  {
    if s != [] {
      assert forall x :: x in s[1..] ==> x in s;
      SameEviction(l, now, s[1..], a, b);
      assert s[0] in s;
    }
    assert forall n :: 0 <= n < |s| ==> s[n] in s;
  }

  /** What a collection leaves is within every limit, and was there before. */
  lemma LeftWithinLimits(l: Limits, s: Entries, stamps: Stamps, now: int, sorted: Entries)
    requires OldestFirstOf(sorted, s, stamps)
    ensures !OverLimit(l, Left(l, stamps, now, sorted)) && forall x :: x in Left(l, stamps, now, sorted) ==> x in s
  {
    EvictsShortestPrefix(l, now, sorted, stamps);
    forall x | x in Left(l, stamps, now, sorted) ensures x in s {
      assert x in multiset(sorted);
    }
  }

  /**
   A collection in numbers: what it leaves was there, is within the limits, and is younger than the age limit; while
   the other limits are not exceeded it drops exactly the entries as old as the age limit, if there is one.
   */
  lemma CollectionInNumbers(l: Limits, s: State, now: int, sorted: Entries, t: State, out: Out)
    requires Step(l, s, GcOp(now), sorted, t, out) && out.Collected?
    ensures |t.entries| == |s.entries| - out.removed
    ensures (l.maxEntries > 0 ==> |t.entries| <= l.maxEntries) && (l.maxSize > 0 ==> TotalSize(t.entries) <= l.maxSize)
    ensures forall x :: x in t.entries ==> x in s.entries && (l.maxAge >= 0.0 ==> Age(s, x, now) as real < l.maxAge)
    ensures !(0 < l.maxEntries < |s.entries|) && !(0 < l.maxSize < TotalSize(s.entries)) ==>
      forall x :: x in s.entries ==> (x in t.entries <==> l.maxAge < 0.0 || Age(s, x, now) as real < l.maxAge)
  {
    hide TotalSize, Evicted, Ts;
    var n := Evicted(l, now, sorted, s.stamps);
    LeftWithinLimits(l, s.entries, s.stamps, now, sorted);
    PermutationSize(s.entries, sorted, s.stamps);
    TotalSizePermuted(s.entries, sorted);
    EvictedInNumbers(l, now, sorted, s.stamps);
    forall x | x in s.entries
      ensures x in t.entries || exists m :: 0 <= m < n && sorted[m] == x
    {
      assert x in multiset(sorted);
      var m :| 0 <= m < |sorted| && sorted[m] == x;
      if m >= n { assert sorted[n..][m - n] == x; }
    }
    forall x | x in t.entries ensures exists m :: n <= m < |sorted| && sorted[m] == x {
      var m :| 0 <= m < |t.entries| && t.entries[m] == x;
      assert sorted[n + m] == x;
    }
  }

  /** How long ago the entry was last used. */
  function Age(s: State, x: Pair<Module>, now: int): int {
    now - Ts(s.stamps, x.value)
  }

  /** An add collects first if and only if a limit on entries or on size is exceeded. */
  lemma AddInNumbers(l: Limits, s: State, op: Op, sorted: Entries, t: State, out: Out)
    requires op.AddOp? && Step(l, s, op, sorted, t, out)
    ensures !(0 < l.maxEntries < |s.entries|) && !(0 < l.maxSize < TotalSize(s.entries)) ==>
      t.entries == if Has(s.entries, op.tmpl) then s.entries else s.entries + [Pair(op.tmpl, op.compiled)]
    ensures 0 < l.maxEntries < |s.entries| || 0 < l.maxSize < TotalSize(s.entries) ==>
      exists u: State, n: nat ::
        && Step(l, s, GcOp(op.gcNow), sorted, u, Collected(n))
        && t.entries == if Has(u.entries, op.tmpl) then u.entries else u.entries + [Pair(op.tmpl, op.compiled)]
  {
    hide TotalSize, Evicted;
    if OverLimit(l, s.entries) {
      var n := Evicted(l, op.gcNow, sorted, s.stamps);
      var u := State(Left(l, s.stamps, op.gcNow, sorted), MapShape.Collected(s.shape, n), s.stamps, s.hits, s.misses);
      assert Step(l, s, GcOp(op.gcNow), sorted, u, Collected(n));
    }
  }

  lemma KeptWithinLimits(l: Limits, s: State, now: int, sorted: Entries)
    requires OverLimit(l, s.entries) ==> Ordered(s, sorted)
    ensures !OverLimit(l, Kept(l, s, now, sorted)) && forall x :: x in Kept(l, s, now, sorted) ==> x in s.entries
  {
    if OverLimit(l, s.entries) { LeftWithinLimits(l, s.entries, s.stamps, now, sorted); }
  }

  predicate SmallAdds(ops: seq<Op>, biggest: nat) {
    forall n :: 0 <= n < |ops| && ops[n].AddOp? ==> ops[n].compiled.size <= biggest
  }

  lemma StepBounded(l: Limits, s: State, op: Op, sorted: Entries, t: State, out: Out, biggest: nat)
    requires Step(l, s, op, sorted, t, out) && Bounded(l, s.entries, biggest)
      && (op.AddOp? ==> op.compiled.size <= biggest)
    ensures Bounded(l, t.entries, biggest)
  {
    match op
    case FindOp(_, _) =>
    case AddOp(tmpl, compiled, gcNow, now) =>
      var kept := Kept(l, s, gcNow, sorted);
      KeptWithinLimits(l, s, gcNow, sorted);
      TotalSizeConcat(kept, [Pair(tmpl, compiled)]);
      assert TotalSize([Pair(tmpl, compiled)]) == compiled.size by { assert [Pair(tmpl, compiled)][1..] == []; }
    case GcOp(now) => LeftWithinLimits(l, s.entries, s.stamps, now, sorted);
    case ResetOp =>
  }

  /** In every state of every run, at most one entry and one module beyond the limits. */
  lemma {:induction false} RunsAreBounded(l: Limits, ops: seq<Op>, states: seq<State>, orders: seq<Entries>,
      outs: seq<Out>, biggest: nat, n: nat)
    requires Trace(l, ops, states, orders, outs) && SmallAdds(ops, biggest) && Bounded(l, states[0].entries, biggest)
    requires n < |states|
    ensures Bounded(l, states[n].entries, biggest)
  {
    if n > 0 {
      RunsAreBounded(l, ops, states, orders, outs, biggest, n - 1);
      StepBounded(l, states[n - 1], ops[n - 1], orders[n - 1], states[n], outs[n - 1], biggest);
    }
  }

  /** An operation adds at most one entry. */
  lemma StepGrows(l: Limits, s: State, op: Op, sorted: Entries, t: State, out: Out)
    requires Step(l, s, op, sorted, t, out)
    ensures |t.entries| <= |s.entries| + 1
  {
    match op
    case FindOp(_, _) =>
    case AddOp(tmpl, compiled, gcNow, now) =>
      if OverLimit(l, s.entries) { PermutationSize(s.entries, sorted, s.stamps); }
    case GcOp(now) => PermutationSize(s.entries, sorted, s.stamps);
    case ResetOp =>
  }

  lemma PermutationSize(s: Entries, sorted: Entries, stamps: Stamps)
    requires OldestFirstOf(sorted, s, stamps)
    ensures |sorted| == |s|
  {
    assert |multiset(sorted)| == |multiset(s)|;
  }

  // ---- the cache follows

  /** So many operations keep the map within the list of primes: there are few of them, or a limit on entries. */
  predicate Serves(l: Limits, entries: nat, operations: nat) {
    || entries + operations + 1 < MapCapacity.REHASH_LIMIT
    || (0 < l.maxEntries && l.maxEntries + 2 < MapCapacity.REHASH_LIMIT && entries <= l.maxEntries + 1)
  }

  /**
   Every run of finds, adds, collections and resets follows the trace, and goes on to its end unless it comes to
   an add that loses the map.
   */
  method Execute(cache: SimpleCache, ops: seq<Op>, ghost modules: set<Module>)
      returns (outs: seq<Out>, ghost states: seq<State>, ghost orders: seq<Entries>)
    requires cache.Valid() && ModulesIn(cache.Contents(), modules)
    requires Serves(cache.limits, cache.currentEntries, |ops|)
    requires forall n :: 0 <= n < |ops| && ops[n].AddOp? ==> ops[n].compiled in modules
    modifies cache, cache.entries, cache.entries.vec, cache.entries.table, modules
    ensures cache.limits == old(cache.limits) && Trace(cache.limits, ops, states, orders, outs)
    ensures states[0] == old(StateOf(cache, modules))
    ensures Survives(cache.limits, ops, states, |outs|)
    ensures |outs| < |ops| ==> LosesMap(cache.limits, states[|outs|], ops[|outs|])
    ensures if |outs| < |ops| then !cache.Valid() && cache.entries.freed
      else cache.Valid() && StateOf(cache, modules) == states[|ops|]
  {
    hide Step, LosesMap, StateOf, Trace, Survives, Serves, OpenAddressing.Inv, OpenAddressing.Pairs;
    outs, states, orders := [], [StateOf(cache, modules)], [];
    TraceStarts(cache.limits, ops, states[0]);
    while |outs| < |ops|
      invariant |outs| <= |ops| && cache.Valid() && ModulesIn(cache.Contents(), modules)
      invariant cache.limits == old(cache.limits) && Serves(cache.limits, cache.currentEntries, |ops| - |outs|)
      invariant cache.entries == old(cache.entries) || (fresh(cache.entries) && fresh(cache.entries.vec)
        && fresh(cache.entries.table))
      invariant |states| == |outs| + 1 && StateOf(cache, modules) == states[|outs|]
      invariant states[0] == old(StateOf(cache, modules))
      invariant Trace(cache.limits, ops, states, orders, outs) && Survives(cache.limits, ops, states, |outs|)
      decreases |ops| - |outs|
    {
      var out, ok;
      ghost var sorted;
      out, ok, sorted := Perform(cache, ops[|outs|], |ops| - |outs|, modules);
      if !ok { return; }
      TraceGrows(cache.limits, ops, states, orders, outs, sorted, StateOf(cache, modules), out);
      outs, states, orders := outs + [out], states + [StateOf(cache, modules)], orders + [sorted];
    }
  }

  /** None of the first n operations loses the map. */
  predicate Survives(l: Limits, ops: seq<Op>, states: seq<State>, n: nat)
    requires n <= |ops| && n < |states|
  {
    forall k :: 0 <= k < n ==> !LosesMap(l, states[k], ops[k])
  }

  lemma TraceStarts(l: Limits, ops: seq<Op>, s: State)
    ensures Trace(l, ops, [s], [], []) && Survives(l, ops, [s], 0)
  {
  }

  lemma TraceGrows(l: Limits, ops: seq<Op>, states: seq<State>, orders: seq<Entries>, outs: seq<Out>,
      sorted: Entries, t: State, out: Out)
    requires Trace(l, ops, states, orders, outs) && |outs| < |ops| && Survives(l, ops, states, |outs|)
    requires Step(l, states[|outs|], ops[|outs|], sorted, t, out) && !LosesMap(l, states[|outs|], ops[|outs|])
    ensures Trace(l, ops, states + [t], orders + [sorted], outs + [out])
    ensures Survives(l, ops, states + [t], |outs| + 1)
  {
    hide Step, LosesMap;
  }

  method Perform(cache: SimpleCache, op: Op, ghost left: nat, ghost modules: set<Module>)
      returns (out: Out, ok: bool, ghost sorted: Entries)
    requires cache.Valid() && ModulesIn(cache.Contents(), modules)
    requires left > 0 && Serves(cache.limits, cache.currentEntries, left)
    requires op.AddOp? ==> op.compiled in modules
    modifies cache, cache.entries, cache.entries.vec, cache.entries.table, modules
    ensures cache.limits == old(cache.limits)
    ensures ok <==> !LosesMap(cache.limits, old(StateOf(cache, modules)), op)
    ensures ok ==> cache.Valid() && ModulesIn(cache.Contents(), modules) && cache.SameOrNewMap()
    ensures ok ==> Serves(cache.limits, cache.currentEntries, left - 1)
    ensures ok ==> Step(cache.limits, old(StateOf(cache, modules)), op, sorted, StateOf(cache, modules), out)
    ensures !ok ==> !cache.Valid() && cache.entries.freed
  {
    ok, sorted := true, [];
    ghost var s := StateOf(cache, modules);
    assert cache.entries.i == |cache.Contents()|;
    match op {
      case FindOp(tmpl, now) => out := PerformFind(cache, tmpl, now, modules);
      case AddOp(_, _, _, _) => out, ok, sorted := PerformAdd(cache, op, modules);
      case GcOp(now) => out, sorted := PerformGc(cache, now, modules);
      case ResetOp =>
        cache.CacheReset();
        out := Cleared;
    }
    if ok { StepServes(cache.limits, s, op, sorted, StateOf(cache, modules), out, left); }
  }

  lemma StepServes(l: Limits, s: State, op: Op, sorted: Entries, t: State, out: Out, left: nat)
    requires Step(l, s, op, sorted, t, out) && left > 0 && Serves(l, |s.entries|, left)
    ensures Serves(l, |t.entries|, left - 1)
  {
    hide Step;
    var biggest := TotalSize(s.entries) + if op.AddOp? then op.compiled.size else 0;
    StepGrows(l, s, op, sorted, t, out);
    if l.maxEntries > 0 && |s.entries| <= l.maxEntries + 1 {
      StepBounded(l, s, op, sorted, t, out, biggest);
    }
  }

  method PerformFind(cache: SimpleCache, tmpl: HString, now: int, ghost modules: set<Module>) returns (out: Out)
    requires cache.Valid() && ModulesIn(cache.Contents(), modules)
    modifies cache`hits, cache`misses, modules
    ensures cache.Valid() && cache.Contents() == old(cache.Contents())
    ensures Step(cache.limits, old(StateOf(cache, modules)), FindOp(tmpl, now), [], StateOf(cache, modules), out)
  {
    ghost var s, before := cache.Contents(), StampsIn(modules);
    ghost var own := StampsOf(s);
    FoundIsMember(s, tmpl);
    var r := cache.CacheFind(tmpl, now);
    out := Found(r);
    forall m | m in modules ensures m.ts == Ts(if r.Some? then before[r.value := now] else before, m) {
      if m in own {
        assert StampsOf(s)[m] == m.ts;
      }
    }
    assert StampsIn(modules) == if r.Some? then before[r.value := now] else before;
  }

  method PerformGc(cache: SimpleCache, now: int, ghost modules: set<Module>) returns (out: Out, ghost sorted: Entries)
    requires cache.Valid() && ModulesIn(cache.Contents(), modules) && cache.entries.i + 1 < MapCapacity.REHASH_LIMIT
    modifies cache, cache.entries, cache.entries.vec, cache.entries.table
    ensures cache.Valid() && ModulesIn(cache.Contents(), modules) && cache.SameOrNewMap()
      && cache.limits == old(cache.limits)
    ensures Step(cache.limits, old(StateOf(cache, modules)), GcOp(now), sorted, StateOf(cache, modules), out)
  {
    hide Evicted, TotalSize, OldestFirstOf, ShouldGc, StampsOf, Ts, Find, OpenAddressing.Inv, OpenAddressing.Pairs;
    ghost var s, own, all := cache.Contents(), StampsOf(cache.Contents()), StampsIn(modules);
    OwnTimes(s, modules);
    var removed;
    removed, sorted := cache.Gc(now);
    out := Collected(removed);
    assert StampsIn(modules) == all;
    SortedAlike(cache.limits, s, own, all, now, sorted);
    LeftWithinLimits(cache.limits, s, all, now, sorted);
  }

  lemma OwnTimes(s: Entries, modules: set<Module>)
    requires ModulesIn(s, modules)
    ensures forall x :: x in s ==> Ts(StampsOf(s), x.value) == Ts(StampsIn(modules), x.value)
  {
  }

  /** The times of all modules order the entries as the times of their own do. */
  lemma SortedAlike(l: Limits, s: Entries, own: Stamps, all: Stamps, now: int, sorted: Entries)
    requires OldestFirstOf(sorted, s, own) && forall x :: x in s ==> Ts(own, x.value) == Ts(all, x.value)
    ensures OldestFirstOf(sorted, s, all) && Evicted(l, now, sorted, own) == Evicted(l, now, sorted, all)
  {
    forall x | x in sorted ensures Ts(own, x.value) == Ts(all, x.value) {
      assert x in multiset(sorted);
    }
    SameEviction(l, now, sorted, own, all);
  }

  method PerformAdd(cache: SimpleCache, op: Op, ghost modules: set<Module>)
      returns (out: Out, ok: bool, ghost sorted: Entries)
    requires cache.Valid() && ModulesIn(cache.Contents(), modules) && cache.entries.i + 1 < MapCapacity.REHASH_LIMIT
    requires op.AddOp? && op.compiled in modules
    modifies cache, cache.entries, cache.entries.vec, cache.entries.table, op.compiled
    ensures cache.limits == old(cache.limits)
    ensures ok <==> !LosesMap(cache.limits, old(StateOf(cache, modules)), op)
    ensures ok ==> cache.Valid() && ModulesIn(cache.Contents(), modules) && cache.SameOrNewMap()
    ensures ok ==> Step(cache.limits, old(StateOf(cache, modules)), op, sorted, StateOf(cache, modules), out)
    ensures !ok ==> !cache.Valid() && cache.entries.freed
  {
    hide Evicted, TotalSize, OldestFirstOf, ShouldGc, Ts, Find, OpenAddressing.Inv, OpenAddressing.Pairs;
    hide Appended, MapShape.Collected;
    ghost var s, own := StateOf(cache, modules), StampsOf(cache.Contents());
    OwnTimes(s.entries, modules);
    var full := cache.entries.vecOffset == cache.entries.vec.Length;
    var over := ShouldGc(cache.limits, cache.currentEntries, cache.currentSize);
    ghost var kept;
    var added;
    added, kept, sorted := cache.CacheAdd(op.tmpl, op.compiled, op.gcNow, op.now);
    out := if added then Added else Threw;
    ok := added || over || !full;
    if over { SortedAlike(cache.limits, s.entries, own, s.stamps, op.gcNow, sorted); }
    KeptWithinLimits(cache.limits, s, op.gcNow, sorted);
    assert kept == Kept(cache.limits, s, op.gcNow, sorted);
    assert StampsIn(modules) == s.stamps[op.compiled := op.now];
  }
}

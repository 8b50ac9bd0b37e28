/** Whole runs of the shared cache by any number of readers and writers. */
module MmapRuns {
  import opened HbsString
  import opened Options
  import opened AssocList
  import opened Arena
  import opened CacheMmap

  // ---- the run as a function of its operations

  /** A module in a reader's hands, and whether the find that handed it over took a reference. */
  datatype Hold = Hold(handle: Handle, counted: bool)

  /** The shared state and the modules in use. */
  datatype World = World(shared: Shared, holds: seq<Hold>)

  /** A reader gives back the module at a place among those in use, counted or not: one reference fewer. */
  datatype Op = FindOp(key: HString, now: int) | AddOp(key: HString, mod: Mod) | ReleaseOp(which: nat) | ResetOp

  function Start(p: Params): World {
    World(Shared([], NoSlots(p.count), 0, 0, 0), [])
  }

  function Next(p: Params, w: World, op: Op): (r: World)
    requires 0 < |w.shared.slots|
    ensures |r.shared.slots| == |w.shared.slots|
  {
    match op
    case FindOp(key, now) =>
      var found := Found(w.shared, key);
      World(FindIn(p, w.shared, key, now),
        if found.Some? then w.holds + [Hold(found.value, !Stale(p, found.value.mod, now))] else w.holds)
    case AddOp(key, mod) => World(AddTo(p, w.shared, key, mod), w.holds)
    case ReleaseOp(which) =>
      if which < |w.holds| then World(w.shared.(refcount := w.shared.refcount - 1), w.holds[..which] +
        w.holds[which + 1..]) else w
    case ResetOp => World(ResetOf(w.shared), w.holds)
  }

  function After(p: Params, ops: seq<Op>): (w: World)
    requires p.count > 0
    ensures |w.shared.slots| == p.count
  {
    if ops == [] then Start(p) else Next(p, After(p, ops[..|ops| - 1]), ops[|ops| - 1])
  }

  /** What a find answers. */
  function Answer(w: World, op: Op): Option<Handle>
    requires 0 < |w.shared.slots|
  {
    if op.FindOp? then Found(w.shared, op.key) else None
  }

  predicate SizedAdds(ops: seq<Op>) {
    forall n :: 0 <= n < |ops| && ops[n].AddOp? ==> ops[n].mod.size > 0
  }

  /**
   The cache follows that function through any run of finds, adds, releases and resets: same answers, same
   modules in use; and at every moment the segment holds, byte for byte, what is allocated.
   */
  method Execute(cache: MmapCache, ops: seq<Op>)
      returns (holds: seq<Hold>, answers: seq<Option<Handle>>, ghost memory: seq<seq<Cell>>)
    requires cache.Valid() && cache.Abs() == Start(cache.p).shared && SizedAdds(ops)
    modifies cache, cache.data, cache.table
    ensures cache.Valid() && World(cache.Abs(), holds) == After(cache.p, ops)
    ensures |answers| == |ops| && forall n :: 0 <= n < |ops| ==> answers[n] == Answer(After(cache.p, ops[..n]), ops[n])
    ensures |memory| == |ops| + 1 && memory[|ops|] == cache.data[..]
    ensures forall n :: 0 <= n <= |ops| ==> Laid(memory[n], After(cache.p, ops[..n]).shared.objs)
  {
    holds, answers, memory := [], [], [cache.data[..]];
    assert ops[..0] == [];
    for n := 0 to |ops|
      invariant cache.Valid() && World(cache.Abs(), holds) == After(cache.p, ops[..n])
      invariant |answers| == n && forall k :: 0 <= k < n ==> answers[k] == Answer(After(cache.p, ops[..k]), ops[k])
      invariant |memory| == n + 1 && memory[n] == cache.data[..]
      invariant forall k :: 0 <= k <= n ==> Laid(memory[k], After(cache.p, ops[..k]).shared.objs)
    {
      var answer;
      holds, answer := Perform(cache, ops[n], holds);
      answers, memory := answers + [answer], memory + [cache.data[..]];
      assert ops[..n + 1][..n] == ops[..n];
    }
    assert ops[..|ops|] == ops;
  }

  method Perform(cache: MmapCache, op: Op, holds: seq<Hold>) returns (holds': seq<Hold>, answer: Option<Handle>)
    requires cache.Valid() && (op.AddOp? ==> op.mod.size > 0)
    modifies cache, cache.data, cache.table
    ensures cache.Valid()
    ensures World(cache.Abs(), holds') == Next(cache.p, old(World(cache.Abs(), holds)), op)
    ensures answer == Answer(old(World(cache.Abs(), holds)), op)
  {
    holds', answer := holds, None;
    match op {
      case FindOp(key, now) =>
        answer := cache.Find(key, now);
        if answer.Some? {
          holds' := holds + [Hold(answer.value, !Stale(cache.p, answer.value.mod, now))];
        }
      case AddOp(key, mod) => cache.Add(key, mod);
      case ReleaseOp(which) =>
        if which < |holds| {
          cache.Release();
          holds' := holds[..which] + holds[which + 1..];
        }
      case ResetOp => cache.Reset();
    }
  }

  // ---- when the reader count is right

  predicate StaleFind(p: Params, w: World, op: Op)
    requires 0 < |w.shared.slots|
  {
    op.FindOp? && Found(w.shared, op.key).Some? && Stale(p, Found(w.shared, op.key).value.mod, op.now)
  }

  /** No find of the run hits a stale module. */
  predicate NoStale(p: Params, ops: seq<Op>)
    requires p.count > 0
  {
    forall n :: 0 <= n < |ops| ==> !StaleFind(p, After(p, ops[..n]), ops[n])
  }

  function StaleFinds(p: Params, ops: seq<Op>): nat
    requires p.count > 0
  {
    if ops == [] then 0
    else
      var before := ops[..|ops| - 1];
      StaleFinds(p, before) + if StaleFind(p, After(p, before), ops[|ops| - 1]) then 1 else 0
  }

  lemma NoStalePrefix(p: Params, ops: seq<Op>)
    requires p.count > 0 && ops != []
    ensures NoStale(p, ops) <==>
      NoStale(p, ops[..|ops| - 1]) && !StaleFind(p, After(p, ops[..|ops| - 1]), ops[|ops| - 1])
  {
    hide StaleFind, After;
    var last := |ops| - 1;
    var before := ops[..last];
    assert forall n :: 0 <= n < last ==> before[..n] == ops[..n] && before[n] == ops[n];
    forall n | 0 <= n < last
      ensures StaleFind(p, After(p, before[..n]), before[n]) == StaleFind(p, After(p, ops[..n]), ops[n])
    {
    }
  }

  lemma {:induction false} StaleFindsNone(p: Params, ops: seq<Op>)
    requires p.count > 0
    ensures StaleFinds(p, ops) == 0 <==> NoStale(p, ops)
  {
    hide StaleFind, After;
    if ops != [] {
      NoStalePrefix(p, ops);
      StaleFindsNone(p, ops[..|ops| - 1]);
    }
  }

  lemma {:induction false} CountIsShort(p: Params, ops: seq<Op>)
    requires p.count > 0
    ensures After(p, ops).shared.refcount == |After(p, ops).holds| - StaleFinds(p, ops)
  {
    if ops != [] {
      CountIsShort(p, ops[..|ops| - 1]);
    }
  }

  /** After any run the reader count is the number of modules in use if and only if no find hit a stale one. */
  lemma CountExact(p: Params, ops: seq<Op>)
    requires p.count > 0
    ensures After(p, ops).shared.refcount == |After(p, ops).holds| <==> NoStale(p, ops)
  {
    CountIsShort(p, ops);
    StaleFindsNone(p, ops);
  }

  /** Every module of the run is found, if at all, with the right version and before it is too old. */
  predicate KeptFresh(p: Params, ops: seq<Op>) {
    forall a, f :: 0 <= a < |ops| && 0 <= f < |ops| && ops[a].AddOp? && ops[f].FindOp? ==>
      !Stale(p, ops[a].mod, ops[f].now)
  }

  /** The module was added by some operation. */
  ghost predicate Added(ops: seq<Op>, mod: Mod) {
    exists a :: 0 <= a < |ops| && ops[a].AddOp? && ops[a].mod == mod
  }

  lemma {:induction false} SlotsWereAdded(p: Params, ops: seq<Op>, n: nat)
    requires p.count > 0 && n < p.count
    ensures After(p, ops).shared.slots[n].Some? ==> Added(ops, After(p, ops).shared.slots[n].value.handle.mod)
  {
    if ops != [] {
      var last := |ops| - 1;
      SlotsWereAdded(p, ops[..last], n);
      var s := After(p, ops[..last]).shared.slots[n];
      if s.Some? {
        var a :| 0 <= a < last && ops[..last][a].AddOp? && ops[..last][a].mod == s.value.handle.mod;
        assert ops[a].AddOp? && ops[a].mod == s.value.handle.mod;
      }
      assert ops[last].AddOp? ==> Added(ops, ops[last].mod);
    }
  }

  /** What a caller can check: versions match and nothing is looked up after its time. */
  lemma FreshIsNoStale(p: Params, ops: seq<Op>)
    requires p.count > 0 && KeptFresh(p, ops)
    ensures NoStale(p, ops)
  {
    forall n | 0 <= n < |ops| ensures !StaleFind(p, After(p, ops[..n]), ops[n]) {
      if ops[n].FindOp? {
        var k := SlotOf(ops[n].key, p.count);
        SlotsWereAdded(p, ops[..n], k);
        var s := After(p, ops[..n]).shared.slots[k];
        if s.Some? {
          var a :| 0 <= a < n && ops[..n][a].AddOp? && ops[..n][a].mod == s.value.handle.mod;
          assert ops[a].AddOp? && ops[a].mod == s.value.handle.mod;
        }
      }
    }
  }

  // ---- reader safety

  ghost predicate HoldsAllocated(w: World) {
    forall h :: h in w.holds ==> Points(w.shared.objs, h.handle.at, ModuleObj(h.handle.mod))
  }

  lemma StillPoints(objs: seq<Obj>, o: Obj)
    ensures forall at, q :: Points(objs, at, q) ==> Points(objs + [o], at, q)
  {
    forall at, q | Points(objs, at, q) ensures Points(objs + [o], at, q) {
      PointsAfterAppend(objs, o, at, q);
    }
  }

  /** An add empties the segment, or only adds to it. */
  lemma AddGrowsOrEmpties(p: Params, s: Shared, key: HString, mod: Mod)
    requires 0 < |s.slots|
    ensures var t := AddTo(p, s, key, mod);
      t.refcount == s.refcount && ((s.refcount <= 0 && t.objs == []) || forall at, q :: Points(s.objs, at, q) ==>
        Points(t.objs, at, q))
  {
    hide Points;
    var keyed := Allocated(p, s.objs, KeyObj(key));
    var both := Allocated(p, keyed, ModuleObj(mod));
    StillPoints(s.objs, KeyObj(key));
    StillPoints(keyed, ModuleObj(mod));
    StillPoints(both, EntryObj(End(s.objs), End(keyed)));
  }

  lemma AddKeepsSlots(p: Params, s: Shared, key: HString, mod: Mod)
    requires 0 < |s.slots| && SlotsHold(s.objs, s.slots) && mod.size > 0
    ensures SlotsHold(AddTo(p, s, key, mod).objs, AddTo(p, s, key, mod).slots)
  {
    hide Points, SlotsHold, Space, End;
    var n := SlotOf(key, |s.slots|);
    if s.slots[n].None? {
      var keyed := Allocated(p, s.objs, KeyObj(key));
      var both := Allocated(p, keyed, ModuleObj(mod));
      var entry := EntryObj(End(s.objs), End(keyed));
      AfterAppend(s.objs, KeyObj(key), s.slots);
      AfterAppend(keyed, ModuleObj(mod), s.slots);
      AfterAppend(both, entry, s.slots);
      NoneHold(|s.slots|);
      if Fits(p, s.objs, KeyObj(key)) && Fits(p, keyed, ModuleObj(mod)) {
        PointsToLast(s.objs, KeyObj(key));
        PointsAfterAppend(keyed, ModuleObj(mod), End(s.objs), KeyObj(key));
        PointsToLast(keyed, ModuleObj(mod));
        PointsAfterAppend(both, entry, End(s.objs), KeyObj(key));
        PointsAfterAppend(both, entry, End(keyed), ModuleObj(mod));
        PointsToLast(both, entry);
        if Fits(p, both, entry) {
          SlotsAfter(both + [entry], s.slots, n, Some(Held(End(both), End(s.objs), key, Handle(End(keyed), mod))));
        } else {
          SlotsAfter(both, s.slots, n, None);
        }
      }
    }
  }

  lemma NoneHold(count: nat)
    ensures SlotsHold([], NoSlots(count))
  {
  }

  /**
   Reader safety: as long as no find hit a stale module, every module in use is allocated and the reader
   count is the number of modules in use.
   */
  lemma {:induction false} ReadersSafe(p: Params, ops: seq<Op>)
    requires p.count > 0 && NoStale(p, ops) && SizedAdds(ops)
    ensures var w := After(p, ops);
      HoldsAllocated(w) && SlotsHold(w.shared.objs, w.shared.slots) && w.shared.refcount == |w.holds|
  {
    CountExact(p, ops);
    if ops == [] {
      NoneHold(p.count);
    } else {
      NoStalePrefix(p, ops);
      ReadersSafe(p, ops[..|ops| - 1]);
      StepIsSafe(p, After(p, ops[..|ops| - 1]), ops[|ops| - 1]);
    }
  }

  lemma StepIsSafe(p: Params, w: World, op: Op)
    requires 0 < |w.shared.slots| && !StaleFind(p, w, op) && (op.AddOp? ==> op.mod.size > 0)
    requires HoldsAllocated(w) && SlotsHold(w.shared.objs, w.shared.slots) && w.shared.refcount == |w.holds|
    ensures HoldsAllocated(Next(p, w, op)) && SlotsHold(Next(p, w, op).shared.objs, Next(p, w, op).shared.slots)
  {
    hide Points, SlotsHold;
    var s := w.shared;
    match op
    case FindOp(key, now) =>
      var n := SlotOf(key, |s.slots|);
      if Found(s, key).Some? { SlotIs(s.objs, s.slots, n); }
    case AddOp(key, mod) =>
      AddGrowsOrEmpties(p, s, key, mod);
      AddKeepsSlots(p, s, key, mod);
    case ReleaseOp(which) =>
    case ResetOp => NoneHold(|s.slots|);
  }

  /** Over a whole run without stale hits, the bytes of every module are its own for as long as it is in use. */
  lemma BytesAreKept(p: Params, ops: seq<Op>, memory: seq<seq<Cell>>, n: nat, h: Hold)
    requires p.count > 0 && NoStale(p, ops) && SizedAdds(ops) && n <= |ops| < |memory|
    requires Laid(memory[n], After(p, ops[..n]).shared.objs) && h in After(p, ops[..n]).holds
    ensures Holds(memory[n], h.handle.at, ModuleObj(h.handle.mod))
  {
    assert forall k :: 0 <= k < n ==> ops[..n][..k] == ops[..k] && ops[..n][k] == ops[k];
    ReadersSafe(p, ops[..n]);
    LaidHolds(memory[n], After(p, ops[..n]).shared.objs, h.handle.at, ModuleObj(h.handle.mod));
  }

  // ---- what one stale hit is enough for

  /** Adds, releases and resets. */
  predicate NoFinds(ops: seq<Op>) {
    forall n :: 0 <= n < |ops| ==> !ops[n].FindOp?
  }

  lemma AfterOne(p: Params, ops: seq<Op>, op: Op)
    requires p.count > 0
    ensures After(p, ops + [op]) == Next(p, After(p, ops), op)
  {
    assert (ops + [op])[..|ops|] == ops;
  }

  lemma {:induction false} NoFindsNoStale(p: Params, ops: seq<Op>, more: seq<Op>)
    requires p.count > 0 && NoStale(p, ops) && NoFinds(more)
    ensures NoStale(p, ops + more)
    decreases |more|
  {
    hide NoStale, After;
    if more == [] {
      assert ops + more == ops;
    } else {
      var before, last := more[..|more| - 1], more[|more| - 1];
      var all := ops + more;
      NoFindsNoStale(p, ops, before);
      assert all[..|all| - 1] == ops + before;
      assert all[|all| - 1] == last;
      NoStalePrefix(p, all);
    }
  }

  function Releases(n: nat): seq<Op> {
    if n == 0 then [] else Releases(n - 1) + [ReleaseOp(0)]
  }

  /** Readers give back the first n modules. */
  lemma {:induction false} AfterReleases(p: Params, ops: seq<Op>, n: nat)
    requires p.count > 0 && n <= |After(p, ops).holds|
    ensures var w := After(p, ops);
      After(p, ops + Releases(n)) == World(w.shared.(refcount := w.shared.refcount - n), w.holds[n..])
  {
    var w := After(p, ops);
    if n == 0 {
      assert ops + Releases(0) == ops && w.holds[0..] == w.holds;
    } else {
      AfterReleases(p, ops, n - 1);
      assert ops + Releases(n) == ops + Releases(n - 1) + [ReleaseOp(0)];
      AfterOne(p, ops + Releases(n - 1), ReleaseOp(0));
      var holds := w.holds[n - 1..];
      assert holds[..0] + holds[1..] == w.holds[n..];
    }
  }

  /** All but one reader give their modules back, and the cache is reset. */
  function Undoing(holds: nat): seq<Op>
    requires holds > 0
  {
    Releases(holds - 1) + [ResetOp]
  }

  lemma {:induction false} ReleasesFindNothing(n: nat)
    ensures NoFinds(Releases(n)) && SizedAdds(Releases(n))
  {
    if n > 0 { ReleasesFindNothing(n - 1); }
  }

  lemma StaleLosesTheLast(p: Params, ops: seq<Op>)
    requires p.count > 0 && !NoStale(p, ops) && After(p, ops).holds != []
    ensures var more := Undoing(|After(p, ops).holds|);
      NoFinds(more) && SizedAdds(more) && !HoldsAllocated(After(p, ops + more))
  {
    hide After, NoStale, StaleFinds, HoldsAllocated, SizedAdds, NoFinds, Releases;
    var w := After(p, ops);
    var n := |w.holds| - 1;
    CountIsShort(p, ops);
    StaleFindsNone(p, ops);
    AfterReleases(p, ops, n);
    AfterOne(p, ops + Releases(n), ResetOp);
    assert ops + Undoing(|w.holds|) == ops + Releases(n) + [ResetOp];
    UndoingFindsNothing(|w.holds|);
    NothingAllocated(After(p, ops + Undoing(|w.holds|)));
  }

  lemma UndoingFindsNothing(n: nat)
    requires n > 0
    ensures NoFinds(Undoing(n)) && SizedAdds(Undoing(n))
  {
    ReleasesFindNothing(n - 1);
  }

  lemma NothingAllocated(w: World)
    requires w.shared.objs == [] && w.holds != []
    ensures !HoldsAllocated(w)
  {
    assert w.holds[0] in w.holds;
  }

  /**
   While a module is in use: whatever is added, given back and reset from now on, every module stays allocated for
   as long as it is in use, if and only if no find so far hit a stale one.
   */
  lemma ReadersSafeExactly(p: Params, ops: seq<Op>)
    requires p.count > 0 && SizedAdds(ops) && After(p, ops).holds != []
    ensures NoStale(p, ops) <==>
      forall more :: NoFinds(more) && SizedAdds(more) ==> HoldsAllocated(After(p, ops + more))
  {
    if NoStale(p, ops) {
      forall more | NoFinds(more) && SizedAdds(more) ensures HoldsAllocated(After(p, ops + more)) {
        NoFindsNoStale(p, ops, more);
        ReadersSafe(p, ops + more);
      }
    } else {
      StaleLosesTheLast(p, ops);
    }
  }

  // ---- a stale hit under a reset

  const TINY: Params := Params(1000, 1, 1, 10.0)
  const K: HString := HString("k", 0)
  const OLD: Mod := Mod(1, 8, 1, 0)
  const NEW: Mod := Mod(2, 8, 1, 20)

  /**
   Ten seconds is the limit. One reader finds the module after five seconds, another after twenty and gives
   it back; then the cache is reset and refilled.
   */
  const STALE_RUN: seq<Op> := [AddOp(K, OLD), FindOp(K, 5), FindOp(K, 20), ReleaseOp(1), ResetOp, AddOp(K, NEW)]

  /** The first reader still uses the module it took a reference to, but its bytes are those of another one. */
  lemma {:induction false} StaleHitLosesAModule(cells: seq<Cell>)
    ensures SizedAdds(STALE_RUN) && !NoStale(TINY, STALE_RUN)
    ensures var w := After(TINY, STALE_RUN);
      && w.holds == [Hold(Handle(32, OLD), true)] && w.shared.refcount == 0
      && (Laid(cells, w.shared.objs) ==> !Holds(cells, 32, ModuleObj(OLD)))
  {
    hide Next, StaleFind, Laid, Holds;
    StaleSteps();
    var ops := STALE_RUN;
    var a, b, c, d, e := ops[..1], ops[..2], ops[..3], ops[..4], ops[..5];
    assert a[..0] == [] && b[..1] == a && c[..2] == b && d[..3] == c && e[..4] == d;
    assert After(TINY, []) == Start(TINY) && After(TINY, a) == W1 && After(TINY, b) == W2;
    assert After(TINY, c) == W3 && After(TINY, d) == W4 && After(TINY, e) == W5 && After(TINY, ops) == W6;
    assert ops[2] == FindOp(K, 20);
    if Laid(cells, W6.shared.objs) { NewBytes(cells); }
  }

  const ONE: Hold := Hold(Handle(32, OLD), true)
  const TWO: Hold := Hold(Handle(32, OLD), false)
  const FILLED: Shared := Shared([KeyObj(K), ModuleObj(OLD), EntryObj(0, 32)], [Some(Held(48, 0, K, Handle(32, OLD)))],
    0, 0, 0)
  const W1: World := World(FILLED, [])
  const W2: World := World(FILLED.(refcount := 1, hits := 1), [ONE])
  const W3: World := World(FILLED.(refcount := 1, hits := 1, misses := 1, slots := [None]), [ONE, TWO])
  const W4: World := World(FILLED.(refcount := 0, hits := 1, misses := 1, slots := [None]), [ONE])
  const W5: World := World(Shared([], [None], 0, 1, 1), [ONE])
  const W6: World := World(
    Shared([KeyObj(K), ModuleObj(NEW), EntryObj(0, 32)], [Some(Held(48, 0, K, Handle(32, NEW)))], 0, 1, 1), [ONE])

  lemma StaleSteps()
    ensures Next(TINY, Start(TINY), AddOp(K, OLD)) == W1 && Next(TINY, W1, FindOp(K, 5)) == W2
    ensures StaleFind(TINY, W2, FindOp(K, 20)) && Next(TINY, W2, FindOp(K, 20)) == W3
    ensures Next(TINY, W3, ReleaseOp(1)) == W4 && Next(TINY, W4, ResetOp) == W5 && Next(TINY, W5, AddOp(K, NEW)) == W6
  {
    hide AddTo;
    FirstAdd(OLD);
    FirstAdd(NEW);
    assert NoSlots(1) == [None];
    assert [] + [ONE] == [ONE] && [ONE] + [TWO] == [ONE, TWO] && [ONE, TWO][..1] + [ONE, TWO][2..] == [ONE];
    assert FILLED.slots[0 := None] == [None];
  }

  lemma NewBytes(cells: seq<Cell>)
    requires Laid(cells, W6.shared.objs)
    ensures !Holds(cells, 32, ModuleObj(OLD))
  {
    FirstAdd(NEW);
    assert Holds(cells, Place(W6.shared.objs, 1), W6.shared.objs[1]);
    assert cells[32] == Part(ModuleObj(NEW), 0);
  }

  lemma Sizes()
    ensures Space(KeyObj(K)) == 32 && Space(ModuleObj(OLD)) == 16 && Space(ModuleObj(NEW)) == 16
      && Space(EntryObj(0, 32)) == 24
  {
  }

  /** An add to an empty cache lays key, module and entry one behind the other. */
  lemma FirstAdd(mod: Mod)
    requires mod.size == 8
    ensures forall hits: nat, misses: nat ::
      AddTo(TINY, Shared([], NoSlots(1), 0, hits, misses), K, mod)
        == Shared([KeyObj(K), ModuleObj(mod), EntryObj(0, 32)], [Some(Held(48, 0, K, Handle(32, mod)))], 0, hits,
          misses)
    ensures Place([KeyObj(K), ModuleObj(mod), EntryObj(0, 32)], 1) == 32
  {
    var one, two, three := [KeyObj(K)], [KeyObj(K), ModuleObj(mod)], [KeyObj(K), ModuleObj(mod), EntryObj(0, 32)];
    Sizes();
    assert Space(ModuleObj(mod)) == 16;
    assert three[..1] == one && one[..0] == [] && two[..1] == one && three[..2] == two;
    assert End([]) == 0 && End(one) == 32 && End(two) == 48;
    assert [] + [KeyObj(K)] == one && one + [ModuleObj(mod)] == two && two + [EntryObj(0, 32)] == three;
  }

  // ---- what the table shows

  datatype Event = AddTried(key: HString, mod: Mod, room: bool) | Expired(slot: nat) | Emptied | Nothing

  type View = seq<Option<Pair<Mod>>>

  function Shown(slots: Slots): (v: View)
    ensures |v| == |slots|
  {
    seq(|slots|, n requires 0 <= n < |slots| =>
      if slots[n].Some? then Some(Pair(slots[n].value.key, slots[n].value.handle.mod)) else None)
  }

  /** A slot in use stays as it is until it expires or everything is emptied. */
  function Apply(v: View, e: Event): View {
    match e
    case AddTried(key, mod, room) =>
      if |v| > 0 && room && v[SlotOf(key, |v|)].None? then v[SlotOf(key, |v|) := Some(Pair(key, mod))] else v
    case Expired(n) => if n < |v| then v[n := None] else v
    case Emptied => seq(|v|, _ => None)
    case Nothing => v
  }

  function Play(count: nat, events: seq<Event>): (v: View)
    ensures |v| == count
  {
    if events == [] then seq(count, _ => None) else Apply(Play(count, events[..|events| - 1]), events[|events| - 1])
  }

  /** Key and module find room. */
  predicate HasRoom(p: Params, s: Shared, key: HString, mod: Mod) {
    Fits(p, s.objs, KeyObj(key)) && Fits(p, s.objs + [KeyObj(key)], ModuleObj(mod))
  }

  /** What an operation does to the table, from the state it meets. */
  function EventOf(p: Params, w: World, op: Op): Event
    requires 0 < |w.shared.slots|
  {
    var s := w.shared;
    match op
    case FindOp(key, _) => if StaleFind(p, w, op) then Expired(SlotOf(key, |s.slots|)) else Nothing
    case AddOp(key, mod) =>
      var pair := s.objs + [KeyObj(key)] + [ModuleObj(mod)];
      if s.slots[SlotOf(key, |s.slots|)].None? && !HasRoom(p, s, key, mod) then if s.refcount > 0 then Nothing
        else Emptied
      else AddTried(key, mod, HasRoom(p, s, key, mod)
        && Fits(p, pair, EntryObj(End(s.objs), End(s.objs + [KeyObj(key)]))))
    case ReleaseOp(_) => Nothing
    case ResetOp => if s.refcount > 0 then Nothing else Emptied
  }

  function EventsOf(p: Params, ops: seq<Op>): (events: seq<Event>)
    requires p.count > 0
    ensures |events| == |ops|
  {
    if ops == [] then [] else EventsOf(p, ops[..|ops| - 1]) + [EventOf(p, After(p, ops[..|ops| - 1]), ops[|ops| - 1])]
  }

  lemma NextShows(p: Params, w: World, op: Op)
    requires 0 < |w.shared.slots|
    ensures Shown(Next(p, w, op).shared.slots) == Apply(Shown(w.shared.slots), EventOf(p, w, op))
  {
    hide End, Space;
  }

  /** The table shows what the events of the run put there. */
  lemma {:induction false} TableShows(p: Params, ops: seq<Op>)
    requires p.count > 0
    ensures Shown(After(p, ops).shared.slots) == Play(p.count, EventsOf(p, ops))
  {
    if ops != [] {
      var last := |ops| - 1;
      TableShows(p, ops[..last]);
      NextShows(p, After(p, ops[..last]), ops[last]);
      assert EventsOf(p, ops)[..last] == EventsOf(p, ops[..last]);
    }
  }

  /** A find answers the module its slot shows, if the key there is equal: never another key's. */
  lemma FindAnswersSlot(p: Params, ops: seq<Op>, key: HString)
    requires p.count > 0
    ensures var shown := Play(p.count, EventsOf(p, ops))[SlotOf(key, p.count)];
      match Found(After(p, ops).shared, key)
      case None => shown.None? || !Eq(key, shown.value.key)
      case Some(h) => shown.Some? && Eq(key, shown.value.key) && h.mod == shown.value.value
  {
    TableShows(p, ops);
  }

  /** The event takes everything out of slot n. */
  predicate Clears(e: Event, n: nat) {
    e.Emptied? || e == Expired(n)
  }

  /** The event is an add that found room and whose key belongs to slot n. */
  predicate Writes(e: Event, count: nat, n: nat) {
    count > 0 && e.AddTried? && e.room && SlotOf(e.key, count) == n
  }

  ghost predicate ClearedBetween(events: seq<Event>, n: nat, from: nat, to: nat)
    requires to <= |events|
  {
    exists l :: from <= l < to && Clears(events[l], n)
  }

  /** Event j filled slot n, which nothing filled before it since it was last cleared. */
  ghost predicate FirstWriter(events: seq<Event>, count: nat, n: nat, j: nat) {
    && j < |events| && Writes(events[j], count, n)
    && !ClearedBetween(events, n, j + 1, |events|)
    && forall m :: 0 <= m < j && Writes(events[m], count, n) ==> ClearedBetween(events, n, m + 1, j)
  }

  /** The events since the slot was last cleared put nothing into it. */
  ghost predicate Unwritten(events: seq<Event>, count: nat, n: nat) {
    forall m :: 0 <= m < |events| && Writes(events[m], count, n) ==> ClearedBetween(events, n, m + 1, |events|)
  }

  /**
   First writer wins: a slot shows the first add to it that found room since it was last cleared, or
   nothing if there was none.
   */
  lemma {:induction false} FirstWriterWins(count: nat, events: seq<Event>, n: nat)
    requires n < count
    ensures match Play(count, events)[n]
      case None => Unwritten(events, count, n)
      case Some(p) => exists j ::
        0 <= j < |events| && FirstWriter(events, count, n, j) && p == Pair(events[j].key, events[j].mod)
    decreases |events|
  {
    if events != [] {
      var last := |events| - 1;
      var before, e := events[..last], events[last];
      FirstWriterWins(count, before, n);
      var was := Play(count, before)[n];
      if Clears(e, n) {
        forall m | 0 <= m < |events| && Writes(events[m], count, n) ensures ClearedBetween(events, n, m + 1, |events|) {
          assert m != last && Clears(events[last], n);
        }
      } else if was.Some? {
        var j :| 0 <= j < |before| && FirstWriter(before, count, n, j)
          && was == Some(Pair(before[j].key, before[j].mod));
        StillFirst(events, count, n, j);
      } else {
        UnwrittenBefore(events, count, n);
        if Writes(e, count, n) {
          assert FirstWriter(events, count, n, last);
        }
      }
    }
  }

  lemma ClearedPrefix(events: seq<Event>, n: nat, from: nat, to: nat, last: nat)
    requires to <= last <= |events|
    ensures ClearedBetween(events[..last], n, from, to) <==> ClearedBetween(events, n, from, to)
  {
    if ClearedBetween(events, n, from, to) {
      var l :| from <= l < to && Clears(events[l], n);
      assert Clears(events[..last][l], n);
    }
  }

  lemma StillFirst(events: seq<Event>, count: nat, n: nat, j: nat)
    requires events != [] && !Clears(events[|events| - 1], n) && FirstWriter(events[..|events| - 1], count, n, j)
    ensures FirstWriter(events, count, n, j)
  {
    var last := |events| - 1;
    ClearedPrefix(events, n, j + 1, last, last);
    forall m | 0 <= m < j && Writes(events[m], count, n) ensures ClearedBetween(events, n, m + 1, j) {
      assert Writes(events[..last][m], count, n);
      ClearedPrefix(events, n, m + 1, j, last);
    }
  }

  lemma UnwrittenBefore(events: seq<Event>, count: nat, n: nat)
    requires events != [] && Unwritten(events[..|events| - 1], count, n)
    ensures forall m :: 0 <= m < |events| - 1 && Writes(events[m], count, n) ==>
      ClearedBetween(events, n, m + 1, |events| - 1) && ClearedBetween(events, n, m + 1, |events|)
  {
    var last := |events| - 1;
    forall m | 0 <= m < last && Writes(events[m], count, n)
      ensures ClearedBetween(events, n, m + 1, last) && ClearedBetween(events, n, m + 1, |events|)
    {
      assert Writes(events[..last][m], count, n);
      ClearedPrefix(events, n, m + 1, last, last);
      var l :| m + 1 <= l < last && Clears(events[l], n);
    }
  }
}

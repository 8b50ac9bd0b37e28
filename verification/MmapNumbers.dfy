/** The operations of the shared cache in numbers: hashes and slots, ages and versions, bytes and room. */
module MmapNumbers {
  import opened HbsString
  import opened Options
  import opened Arena
  import opened CacheMmap
  import opened MmapRuns

  // ---- finds

  /** What a slot holds for a key: it has to be as long and to have the same hash as the one it was stored under. */
  predicate HoldsFor(slot: Option<Held>, key: HString) {
    slot.Some? && |slot.value.key.val| == |key.val| && slot.value.key.hash == key.hash
  }

  /**
   A find looks at the slot the hash names. A usable module there is a hit and takes a reference; one that is not
   usable is a miss, leaves the table, and is handed over without a reference.
   */
  lemma FindInNumbers(p: Params, w: World, key: HString, now: int)
    requires 0 < |w.shared.slots|
    ensures var n, t := key.hash % |w.shared.slots|, Next(p, w, FindOp(key, now));
      var slot := w.shared.slots[n];
      if !HoldsFor(slot, key) then
        Answer(w, FindOp(key, now)) == None && t == World(w.shared.(misses := w.shared.misses + 1), w.holds)
      else
        && Answer(w, FindOp(key, now)) == Some(slot.value.handle)
        && if slot.value.handle.mod.version == p.version
            && (p.maxAge < 0.0 || (now - slot.value.handle.mod.ts) as real < p.maxAge)
          then t == World(w.shared.(hits := w.shared.hits + 1, refcount := w.shared.refcount + 1),
            w.holds + [Hold(slot.value.handle, true)])
          else t == World(w.shared.(misses := w.shared.misses + 1, slots := w.shared.slots[n := None]),
            w.holds + [Hold(slot.value.handle, false)])
  {
  }

  predicate OwnVersions(p: Params, ops: seq<Op>) {
    forall n :: 0 <= n < |ops| && ops[n].AddOp? ==> ops[n].mod.version == p.version
  }

  /** Every add and every find come close enough together for the age limit, if there is one. */
  predicate InTime(p: Params, ops: seq<Op>) {
    p.maxAge < 0.0 || forall a, f :: 0 <= a < |ops| && 0 <= f < |ops| && ops[a].AddOp? && ops[f].FindOp? ==>
      (ops[f].now - ops[a].mod.ts) as real < p.maxAge
  }

  /**
   Over whole runs: without an age limit, or as long as everything is looked up in time, and with one version, the
   reader count is the number of modules in use; every find that answers is a hit, takes a reference and leaves the
   table as it is.
   */
  lemma NothingExpires(p: Params, ops: seq<Op>)
    requires p.count > 0 && OwnVersions(p, ops) && InTime(p, ops)
    ensures After(p, ops).shared.refcount == |After(p, ops).holds|
    ensures forall n :: 0 <= n < |ops| && Answer(After(p, ops[..n]), ops[n]).Some? ==>
      var before, after := After(p, ops[..n]).shared, After(p, ops[..n + 1]).shared;
      after == before.(hits := before.hits + 1, refcount := before.refcount + 1)
  {
    hide After;
    assert KeptFresh(p, ops);
    FreshIsNoStale(p, ops);
    CountExact(p, ops);
    forall n | 0 <= n < |ops| && Answer(After(p, ops[..n]), ops[n]).Some?
      ensures var before, after := After(p, ops[..n]).shared, After(p, ops[..n + 1]).shared;
        after == before.(hits := before.hits + 1, refcount := before.refcount + 1)
    {
      assert ops[..n + 1] == ops[..n] + [ops[n]];
      AfterOne(p, ops[..n], ops[n]);
      assert !StaleFind(p, After(p, ops[..n]), ops[n]);
    }
  }

  // ---- slots

  /** After any run, what a slot holds is stored under a key whose hash, modulo the number of slots, is its number. */
  lemma {:induction false} SlotsAreByHash(p: Params, ops: seq<Op>, n: nat)
    requires p.count > 0 && n < p.count
    ensures var slot := After(p, ops).shared.slots[n];
      slot.Some? ==> slot.value.key.hash % p.count == n
  {
    if ops != [] {
      hide End, Space;
      SlotsAreByHash(p, ops[..|ops| - 1], n);
    }
  }

  // ---- room

  /** Up to whole words of eight bytes. */
  function Rounded(size: nat): nat {
    (size + 7) / 8 * 8
  }

  lemma SpaceInNumbers(key: HString, mod: Mod, keyAt: nat, dataAt: nat)
    ensures Space(KeyObj(key)) == Rounded(24 + |key.val| + 2)
    ensures Space(ModuleObj(mod)) == Rounded(mod.size + 1)
    ensures Space(EntryObj(keyAt, dataAt)) == 24
  {
  }

  /**
   An add to a used slot changes nothing. Otherwise it needs room for the key with its header, its end and a byte of
   padding, for the module with a byte of padding, and for the entry, all rounded up, and a byte must be left. Without
   room for key and module nothing is stored, and everything is dropped unless somebody reads.
   */
  lemma AddInNumbers(p: Params, w: World, key: HString, mod: Mod)
    requires 0 < |w.shared.slots|
    ensures var s, t, n := w.shared, Next(p, w, AddOp(key, mod)), key.hash % |w.shared.slots|;
      var keyAt := End(s.objs);
      var dataAt := keyAt + Rounded(24 + |key.val| + 2);
      var entryAt := dataAt + Rounded(mod.size + 1);
      && t.holds == w.holds && t.shared.hits == s.hits && t.shared.misses == s.misses && t.shared.refcount == s.refcount
      && if s.slots[n].Some? then t == w
        else if entryAt < p.dataSize then
          && t.shared.slots == s.slots[n :=
            if entryAt + 24 < p.dataSize then Some(Held(entryAt, keyAt, key, Handle(dataAt, mod))) else None]
          && t.shared.objs == s.objs + [KeyObj(key), ModuleObj(mod)]
            + (if entryAt + 24 < p.dataSize then [EntryObj(keyAt, dataAt)] else [])
        else if s.refcount > 0 then t.shared.slots == s.slots
        else t.shared.objs == [] && forall m :: 0 <= m < |t.shared.slots| ==> t.shared.slots[m] == None
  {
    hide Space, Rounded;
    var s, keyAt := w.shared, End(w.shared.objs);
    var one, two := s.objs + [KeyObj(key)], s.objs + [KeyObj(key)] + [ModuleObj(mod)];
    PlaceAfterAppend(s.objs, KeyObj(key), 0);
    PlaceAfterAppend(one, ModuleObj(mod), 0);
    SpaceInNumbers(key, mod, keyAt, End(one));
    PlaceAfterAppend(two, EntryObj(keyAt, End(one)), 0);
    assert two == s.objs + [KeyObj(key), ModuleObj(mod)];
  }

  /** A reset drops everything, unless somebody reads; the counts stay. */
  lemma ResetInNumbers(p: Params, w: World)
    requires 0 < |w.shared.slots|
    ensures var s, t := w.shared, Next(p, w, ResetOp);
      && t.holds == w.holds && t.shared.hits == s.hits && t.shared.misses == s.misses && t.shared.refcount == s.refcount
      && (s.refcount > 0 ==> t == w)
      && (s.refcount <= 0 ==> t.shared.objs == [] && |t.shared.slots| == |s.slots|)
      && (s.refcount <= 0 ==> forall m :: 0 <= m < |s.slots| ==> t.shared.slots[m] == None)
  {
  }
}

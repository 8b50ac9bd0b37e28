/**
 The shared-memory module cache of src/handlebars_cache_mmap.c: a bump allocator, a direct-mapped
 table of entries inside it, and a count of readers that gates the reset. Every operation is one step,
 proved to do what a function on the abstract state says.
 */
module CacheMmap {
  import opened HbsString
  import opened Options
  import opened Arena

  /** A module handed to a reader: where it lies and what it is. */
  datatype Handle = Handle(at: nat, mod: Mod)

  /** What a table slot stands for. */
  datatype Held = Held(entryAt: nat, keyAt: nat, key: HString, handle: Handle)

  type Slots = seq<Option<Held>>

  datatype Params = Params(dataSize: nat, count: nat, version: int, maxAge: real)

  /** What the processes share: what is allocated, what the table slots stand for, and the counters. */
  datatype Shared = Shared(objs: seq<Obj>, slots: Slots, refcount: int, hits: nat, misses: nat)

  // ---- the operations on the abstract state

  function SlotOf(key: HString, count: nat): (n: nat)
    requires count > 0
    ensures n < count
  {
    key.hash % count
  }

  function NoSlots(count: nat): (s: Slots)
    ensures |s| == count && forall n :: 0 <= n < count ==> s[n] == None
  {
    seq(count, _ => None)
  }

  predicate Fits(p: Params, objs: seq<Obj>, o: Obj) {
    End(objs) + Space(o) < p.dataSize
  }

  function Allocated(p: Params, objs: seq<Obj>, o: Obj): seq<Obj> {
    if Fits(p, objs, o) then objs + [o] else objs
  }

  /** A reset takes effect only while the reader count is not positive; the count itself stays. */
  function ResetOf(s: Shared): Shared {
    if s.refcount > 0 then s else s.(objs := [], slots := NoSlots(|s.slots|))
  }

  /** Key, module and entry are allocated in turn; the slot is filled if all three find room. */
  function AddTo(p: Params, s: Shared, key: HString, mod: Mod): Shared
    requires 0 < |s.slots|
  {
    var n := SlotOf(key, |s.slots|);
    if s.slots[n].Some? then s
    else
      var keyed := Allocated(p, s.objs, KeyObj(key));
      var both := Allocated(p, keyed, ModuleObj(mod));
      if !Fits(p, s.objs, KeyObj(key)) || !Fits(p, keyed, ModuleObj(mod)) then ResetOf(s.(objs := both))
      else
        var entry := EntryObj(End(s.objs), End(keyed));
        var held := Held(End(both), End(s.objs), key, Handle(End(keyed), mod));
        s.(objs := Allocated(p, both, entry), slots := s.slots[n := if Fits(p, both, entry) then Some(held) else None])
  }

  predicate Stale(p: Params, m: Mod, now: int) {
    m.version != p.version || (p.maxAge >= 0.0 && (now - m.ts) as real >= p.maxAge)
  }

  /** The module a find returns: the slot's, if its key is equal. */
  function Found(s: Shared, key: HString): Option<Handle>
    requires 0 < |s.slots|
  {
    match s.slots[SlotOf(key, |s.slots|)]
    case None => None
    case Some(h) => if Eq(key, h.key) then Some(h.handle) else None
  }

  /** A fresh module takes a reference; a stale one leaves the table and takes none, though it is returned. */
  function FindIn(p: Params, s: Shared, key: HString, now: int): Shared
    requires 0 < |s.slots|
  {
    match Found(s, key)
    case None => s.(misses := s.misses + 1)
    case Some(h) =>
      if Stale(p, h.mod, now) then s.(slots := s.slots[SlotOf(key, |s.slots|) := None], misses := s.misses + 1)
      else s.(hits := s.hits + 1, refcount := s.refcount + 1)
  }

  // ---- how the segment holds the abstract state

  ghost predicate HeldIn(objs: seq<Obj>, h: Held) {
    && Points(objs, h.entryAt, EntryObj(h.keyAt, h.handle.at))
    && Points(objs, h.keyAt, KeyObj(h.key))
    && Points(objs, h.handle.at, ModuleObj(h.handle.mod)) && h.handle.mod.size > 0
  }

  /** A slot holds an entry whose key hashes to it. */
  ghost predicate SlotHolds(objs: seq<Obj>, n: nat, slot: Option<Held>, count: nat)
    requires count > 0
  {
    slot.Some? ==> HeldIn(objs, slot.value) && SlotOf(slot.value.key, count) == n
  }

  /** Every slot is empty or holds an allocated entry of its own. */
  ghost predicate SlotsHold(objs: seq<Obj>, slots: Slots) {
    forall n :: 0 <= n < |slots| ==> SlotHolds(objs, n, slots[n], |slots|)
  }

  function Words(slots: Slots): (w: seq<Option<nat>>)
    ensures |w| == |slots|
    ensures forall n :: 0 <= n < |w| ==> w[n] == if slots[n].Some? then Some(slots[n].value.entryAt) else None
  {
    seq(|slots|, n requires 0 <= n < |slots| => if slots[n].Some? then Some(slots[n].value.entryAt) else None)
  }

  /** Allocating more keeps every slot. */
  lemma AfterAppend(objs: seq<Obj>, o: Obj, slots: Slots)
    requires SlotsHold(objs, slots)
    ensures SlotsHold(objs + [o], slots)
  {
    forall at, p | Points(objs, at, p) ensures Points(objs + [o], at, p) {
      PointsAfterAppend(objs, o, at, p);
    }
    forall n | 0 <= n < |slots| ensures SlotHolds(objs + [o], n, slots[n], |slots|) {
      assert SlotHolds(objs, n, slots[n], |slots|);
    }
  }

  lemma SlotsAfter(objs: seq<Obj>, slots: Slots, n: nat, slot: Option<Held>)
    requires SlotsHold(objs, slots) && n < |slots| && SlotHolds(objs, n, slot, |slots|)
    ensures SlotsHold(objs, slots[n := slot])
  {
    var after := slots[n := slot];
    forall m | 0 <= m < |after| ensures SlotHolds(objs, m, after[m], |slots|) {
      assert SlotHolds(objs, m, slots[m], |slots|);
    }
  }

  lemma SlotIs(objs: seq<Obj>, slots: Slots, n: nat)
    requires SlotsHold(objs, slots) && n < |slots| && slots[n].Some?
    ensures HeldIn(objs, slots[n].value)
  {
    assert SlotHolds(objs, n, slots[n], |slots|);
  }

  class MmapCache {
    const p: Params
    const data: array<Cell>
    const table: array<Option<nat>>
    var dataLength: nat
    var hits: nat
    var misses: nat
    var inReset: bool
    var refcount: int
    /** What has been allocated since the last reset. */
    ghost var objs: seq<Obj>
    /** What the table slots stand for. */
    ghost var slots: Slots

    ghost predicate Valid()
      reads this, data, table
    {
      && data.Length == p.dataSize && table.Length == p.count == |slots| > 0
      && dataLength == End(objs) <= p.dataSize && !inReset
      && Laid(data[..], objs)
      && SlotsHold(objs, slots) && table[..] == Words(slots)
    }

    ghost function Abs(): Shared
      reads this
    {
      Shared(objs, slots, refcount, hits, misses)
    }

    constructor (p: Params)
      requires p.count > 0
      ensures Valid() && fresh(data) && fresh(table) && this.p == p
      ensures Abs() == Shared([], NoSlots(p.count), 0, 0, 0)
    {
      this.p := p;
      data := new Cell[p.dataSize](_ => Blank);
      table := new Option<nat>[p.count](_ => None);
      dataLength, hits, misses, inReset, refcount := 0, 0, 0, false, 0;
      objs, slots := [], NoSlots(p.count);
      new;
      assert table[..] == Words(slots);
    }

    /** append: room for the object, its padding and one byte more. */
    method Append(o: Obj) returns (addr: Option<nat>)
      requires Valid()
      modifies this`dataLength, this`objs, data
      ensures Valid() && objs == Allocated(p, old(objs), o)
      ensures addr == if Fits(p, old(objs), o) then Some(End(old(objs))) else None
      ensures data[..End(old(objs))] == old(data[..dataLength])
    {
      hide Points, Holds, Laid, SlotsHold, SizeOf;
      var alignedSize := Space(o);
      var at := dataLength;
      if dataLength + alignedSize >= p.dataSize {
        return None;
      }
      dataLength := dataLength + alignedSize;
      ghost var before := data[..];
      Write(at, o, alignedSize);
      PlaceAfterAppend(objs, o, 0);
      LaidAfterAppend(before, data[..], objs, o);
      AfterAppend(objs, o, slots);
      objs := objs + [o];
      addr := Some(at);
    }

    /** memcpy and memset. */
    method Write(at: nat, o: Obj, space: nat)
      requires SizeOf(o) < space && at + space <= data.Length
      modifies data
      ensures Holds(data[..], at, o)
      ensures data[..at] == old(data[..at])
    {
      var size := SizeOf(o);
      for k := 0 to size
        invariant forall n :: 0 <= n < at ==> data[n] == old(data[n])
        invariant forall n :: 0 <= n < k ==> data[at + n] == Part(o, n)
      {
        data[at + k] := Part(o, k);
      }
      for k := size to space
        invariant forall n :: 0 <= n < at ==> data[n] == old(data[n])
        invariant forall n :: 0 <= n < size ==> data[at + n] == Part(o, n)
      {
        data[at + k] := Blank;
      }
      forall n | at <= n < at + size ensures data[n] == Part(o, n - at) {
        assert data[at + (n - at)] == Part(o, n - at);
      }
    }

    method Find(key: HString, now: int) returns (r: Option<Handle>)
      requires Valid()
      modifies this`hits, this`misses, this`refcount, this`slots, table
      ensures Valid() && r == Found(old(Abs()), key)
      ensures Abs() == FindIn(p, old(Abs()), key, now)
    {
      hide Points, Holds, Laid, SlotsHold, HeldIn;
      if inReset { return None; }
      var offset := SlotOf(key, p.count);
      var entry := table[offset];
      assert entry == Words(slots)[offset];
      if entry.None? {
        misses := misses + 1;
        return None;
      }
      SlotIs(objs, slots, offset);
      var dataAt, found, mod := ReadEntry(entry.value, slots[offset].value);
      if !Eq(key, found) {
        misses := misses + 1;
        return None;
      }
      r := Some(Handle(dataAt, mod));
      if Stale(p, mod, now) {
        ghost var before := slots;
        table[offset] := None;
        SlotsAfter(objs, slots, offset, None);
        slots := slots[offset := None];
        assert table[..] == Words(before)[offset := None] == Words(slots);
        misses := misses + 1;
        return;
      }
      hits := hits + 1;
      refcount := refcount + 1;
    }

    /** Follows the pointers of a table entry. */
    method ReadEntry(at: nat, ghost h: Held) returns (dataAt: nat, key: HString, mod: Mod)
      requires Valid() && at == h.entryAt && HeldIn(objs, h)
      ensures Handle(dataAt, mod) == h.handle && key == h.key
    {
      LaidHolds(data[..], objs, at, EntryObj(h.keyAt, h.handle.at));
      assert data[..][at] == Part(EntryObj(h.keyAt, h.handle.at), 0);
      var keyAt := data[at].obj.keyAt;
      dataAt := data[at].obj.dataAt;
      LaidHolds(data[..], objs, keyAt, KeyObj(h.key));
      assert data[..][keyAt] == Part(KeyObj(h.key), 0);
      LaidHolds(data[..], objs, dataAt, ModuleObj(h.handle.mod));
      assert data[..][dataAt] == Part(ModuleObj(h.handle.mod), 0);
      key, mod := data[keyAt].obj.key, data[dataAt].obj.mod;
    }

    /** Of whichever module: the count does not say whose reference goes. */
    method Release()
      requires Valid()
      modifies this`refcount
      ensures Valid() && Abs() == old(Abs()).(refcount := old(refcount) - 1)
    {
      refcount := refcount - 1;
    }

    method Reset()
      requires Valid()
      modifies this`inReset, this`dataLength, this`objs, this`slots, table
      ensures Valid() && Abs() == ResetOf(old(Abs()))
    {
      inReset := true;
      if refcount <= 0 {
        dataLength := 0;
        for n := 0 to table.Length
          modifies table
          invariant forall m :: 0 <= m < n ==> table[m] == None
        {
          table[n] := None;
        }
        objs, slots := [], NoSlots(p.count);
        assert table[..] == Words(slots);
      }
      inReset := false;
    }

    method Add(key: HString, mod: Mod)
      requires Valid() && mod.size > 0
      modifies this`dataLength, this`objs, this`slots, this`inReset, data, table
      ensures Valid() && Abs() == AddTo(p, old(Abs()), key, mod)
    {
      hide Points, Holds, Laid, SlotsHold, HeldIn, Space, End;
      if inReset { return; }
      var offset := SlotOf(key, p.count);
      assert table[offset] == Words(slots)[offset];
      if table[offset].Some? { return; }
      var keyAt := Append(KeyObj(key));
      ghost var keyed := objs;
      var dataAt := Append(ModuleObj(mod));
      if keyAt.None? || dataAt.None? {
        Reset();
        return;
      }
      PointsToLast(old(objs), KeyObj(key));
      PointsAfterAppend(keyed, ModuleObj(mod), keyAt.value, KeyObj(key));
      PointsToLast(keyed, ModuleObj(mod));
      TableSet(key, mod, keyAt.value, dataAt.value);
    }

    /** table_set: the entry itself is allocated last; without room for it the slot stays empty. */
    method TableSet(key: HString, mod: Mod, keyAt: nat, dataAt: nat)
      requires Valid() && mod.size > 0 && slots[SlotOf(key, p.count)].None?
      requires Points(objs, keyAt, KeyObj(key)) && Points(objs, dataAt, ModuleObj(mod))
      modifies this`dataLength, this`objs, this`slots, data, table
      ensures Valid() && objs == Allocated(p, old(objs), EntryObj(keyAt, dataAt))
      ensures slots == old(slots)[SlotOf(key, p.count) := if Fits(p, old(objs), EntryObj(keyAt, dataAt))
        then Some(Held(End(old(objs)), keyAt, key, Handle(dataAt, mod))) else None]
    {
      hide Points, Laid, Holds, SlotsHold, Space, End;
      var offset := SlotOf(key, p.count);
      var o := EntryObj(keyAt, dataAt);
      ghost var before, was := objs, slots;
      var at := Append(o);
      ghost var slot := None;
      if at.Some? {
        slot := Some(Held(at.value, keyAt, key, Handle(dataAt, mod)));
        PointsAfterAppend(before, o, keyAt, KeyObj(key));
        PointsAfterAppend(before, o, dataAt, ModuleObj(mod));
        PointsToLast(before, o);
      }
      table[offset] := at;
      SlotsAfter(objs, slots, offset, slot);
      slots := slots[offset := slot];
      assert table[..] == Words(was)[offset := at] == Words(slots);
    }
  }
}

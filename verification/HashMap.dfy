/** The insertion-ordered hash map of src/handlebars_map.c. */
module HashMap {
  import opened HbsString
  import opened Options
  import opened AssocList
  import opened MapCapacity
  import opened OpenAddressing
  import opened MapShape
  import SortR

  /** struct ht_find_result; entry is the vector index the source's entry pointer points at. */
  datatype FindResult = FindResult(emptyFound: bool, emptyOffset: nat, entryOffset: nat, entry: Option<nat>,
      tombstones: nat)

  /** p is the first NULL on the probe chain of k. */
  ghost predicate FirstNull(table: seq<Slot>, k: HString, p: nat)
    requires p < |table|
  {
    var start := k.hash % |table|;
    && table[p] == Null
    && forall d :: 0 <= d < Steps(start, p, |table|) ==> table[Probe(start, d, |table|)] != Null
  }

  /** A reference count is one byte and sticks at its maximum. */
  const IMMORTAL: nat := 255

  function KvCompare<V>(cmp: (Pair<V>, Pair<V>) -> int): (Entry<V>, Entry<V>) -> int {
    (a: Entry<V>, b: Entry<V>) =>
      if a.Live? && b.Live? then cmp(Pair(a.key, a.value), Pair(b.key, b.value)) else 0
  }

  class HashMap<V> {
    const vec: array<Entry<V>>
    const table: array<Slot>
    var i: nat
    var vecOffset: nat
    var isInIteration: bool
    var refcount: nat
    /** Set when the last reference goes away; the block is then no longer a map. */
    var freed: bool

    ghost predicate Valid()
      reads this, vec, table
    {
      && !freed
      && refcount <= IMMORTAL
      && IsTableCapacity(vec.Length, table.Length)
      && vecOffset <= vec.Length
      && Inv(vec[..vecOffset], table[..])
      && i == |Pairs(vec[..vecOffset])|
    }

    ghost function Contents(): seq<Pair<V>>
      reads this, vec
      requires vecOffset <= vec.Length
    {
      Pairs(vec[..vecOffset])
    }

    /** The condition under which handlebars_map_rehash copies the map. */
    ghost predicate NeedsRehash(force: bool)
      reads this
      requires table.Length > 0
    {
      && !isInIteration
      && (force || refcount > 1 || vecOffset == vec.Length || LoadFactor(i, table.Length) > MAX_LOAD_FACTOR)
    }

    /** A copy is asked for only while the list of primes can serve it; beyond that the source aborts. */
    ghost predicate RehashFits(force: bool)
      reads this
      requires table.Length > 0
    {
      NeedsRehash(force) ==> i + 1 < REHASH_LIMIT
    }

    ghost function ShapeNow(): Shape
      reads this
    {
      Shape(i, vecOffset, vec.Length)
    }

    /** Nobody else holds the map, and nobody is iterating over it: how it grows depends on its shape only. */
    ghost predicate Alone()
      reads this
    {
      refcount <= 1 && !isInIteration
    }

    /** While an iteration is running the map cannot grow, so the caller must leave it room. */
    ghost predicate RoomFor(key: HString)
      reads this, vec
      requires vecOffset <= vec.Length
    {
      isInIteration ==> vecOffset < vec.Length || Has(Contents(), key)
    }

    /** What a replaced map looks like: one reference fewer, nothing else touched. */
    twostate predicate LeftBehind()
      reads this, vec, table
    {
      && vec[..] == old(vec[..]) && table[..] == old(table[..])
      && i == old(i) && vecOffset == old(vecOffset) && isInIteration == old(isInIteration)
      && refcount == (if old(refcount) == IMMORTAL then IMMORTAL else if old(refcount) <= 1 then 0
        else old(refcount) - 1)
      && freed == (old(freed) || old(refcount) <= 1)
    }

    /** The map a rehash hands out: a new block, with one reference if the old one was counted at all. */
    twostate predicate Successor(new m: HashMap<V>)
      reads this, m
    {
      && fresh(m) && fresh(m.vec) && fresh(m.table)
      && m.refcount == (if old(refcount) >= 1 then 1 else 0)
      && !m.isInIteration
    }

    constructor (capacity: nat)
      requires HasTable(capacity)
      ensures Valid() && fresh(vec) && fresh(table)
      ensures Contents() == [] && i == 0 && vecOffset == 0 && vec.Length == capacity
      ensures refcount == 0 && !isInIteration
    {
      var tableCapacity := ChooseTableCapacity(capacity);
      vec := new Entry<V>[capacity];
      table := new Slot[tableCapacity](_ => Null);
      i, vecOffset := 0, 0;
      isInIteration, refcount, freed := false, 0, false;
      new;
      TableLargerThanVector(capacity, table.Length);
      assert NonNull(table[..]) == {};
    }

    method AddRef()
      modifies this`refcount
      ensures refcount == if old(refcount) < IMMORTAL then old(refcount) + 1 else old(refcount)
    {
      if refcount < IMMORTAL {
        refcount := refcount + 1;
      }
    }

    method DelRef()
      modifies this`refcount, this`freed
      ensures LeftBehind()
    {
      if refcount == IMMORTAL {
      } else if refcount <= 1 {
        refcount := 0;
        freed := true;
      } else {
        refcount := refcount - 1;
      }
    }

    /** map_find_entry, including the line that never marks a tombstone as free. */
    method FindEntry(key: HString) returns (ret: FindResult)
      requires Valid()
      ensures ret.entry.Some? <==> Has(Contents(), key)
      ensures ret.emptyFound <==> !Has(Contents(), key)
      ensures ret.entry.Some? ==>
        var j := ret.entry.value;
        && j < vecOffset && vec[j].Live? && Eq(vec[j].key, key)
        && ret.entryOffset == vec[j].offset
        && Find(Contents(), key) == Some(vec[j].value)
      ensures ret.emptyFound ==> ret.emptyOffset < table.Length && FirstNull(table[..], key, ret.emptyOffset)
    {
      ghost var v, t := vec[..vecOffset], table[..];
      TableLargerThanVector(vec.Length, table.Length);
      var start := key.hash % table.Length;
      ret := FindResult(false, 0, 0, None, 0);
      var n := 0;
      while n < table.Length
        invariant n <= table.Length
        invariant !ret.emptyFound && ret.entry.None?
        invariant forall d :: 0 <= d < n ==> t[Probe(start, d, table.Length)] != Null
        invariant forall d :: 0 <= d < n ==>
          var s := t[Probe(start, d, table.Length)];
          s.Ref? ==> !Eq(v[s.index].key, key)
      {
        var pos := (start + n) % table.Length;
        assert pos == Probe(start, n, table.Length);
        match table[pos] {
          case Null =>
            ret := ret.(emptyFound := true, emptyOffset := pos);
            ProbeMiss(v, t, key, n);
            NotInPairs(v, key);
            ProbeInjective(start, n, Steps(start, pos, table.Length), table.Length);
            return;
          case Tombstone =>
            ret := ret.(tombstones := ret.tombstones + 1);
            if !ret.emptyFound {
              ret := ret.(emptyOffset := pos);
            }
          case Ref(j) =>
            if Eq(vec[j].key, key) {
              ret := ret.(entryOffset := pos, entry := Some(j));
              FindInPairs(v, key, j);
              return;
            }
        }
        n := n + 1;
      }
      ProbeMeetsNull(v, t, start);
      assert false;
    }

    method AddAtTableOffset(key: HString, value: V, offset: nat)
      requires Valid() && !Has(Contents(), key)
      requires vecOffset < vec.Length
      requires offset < table.Length && FirstNull(table[..], key, offset)
      modifies this`i, this`vecOffset, vec, table
      ensures Valid()
      ensures Contents() == old(Contents()) + [Pair(key, value)]
      ensures i == old(i) + 1 && vecOffset == old(vecOffset) + 1
    {
      ghost var v, t := vec[..vecOffset], table[..];
      TableLargerThanVector(vec.Length, table.Length);
      forall j | 0 <= j < |v| && v[j].Live? ensures !Eq(v[j].key, key) {
        if Eq(v[j].key, key) { FindInPairs(v, key, j); }
      }
      AddKeepsInv(v, t, key, value, Steps(key.hash % |t|, offset, |t|));
      PairsAppend(v, Live(key, value, offset));
      vec[vecOffset] := Live(key, value, offset);
      table[offset] := Ref(vecOffset);
      i := i + 1;
      vecOffset := vecOffset + 1;
      assert vec[..vecOffset] == v + [Live(key, value, offset)];
      assert table[..] == t[offset := Ref(|v|)];
    }

    method Lookup(key: HString) returns (r: Option<V>)
      requires Valid()
      ensures r == Find(Contents(), key)
    {
      var o := FindEntry(key);
      match o.entry
      case Some(j) => r := Some(vec[j].value);
      case None => r := None;
    }

    /** Walks the live entries in vector order with the iteration flag raised, adding each to a new map. */
    method CopyCtor(newCapacity: nat) returns (m: HashMap<V>)
      requires Valid() && HasTable(newCapacity)
      modifies this`isInIteration
      ensures isInIteration == old(isInIteration)
      ensures fresh(m) && fresh(m.vec) && fresh(m.table) && m.Valid()
      ensures m.Contents() == Contents() && m.i == m.vecOffset == i
      ensures m.vec.Length == if newCapacity < vec.Length then vec.Length else newCapacity
      ensures m.refcount == 0 && !m.isInIteration
      decreases 1, 2
    {
      var capacity := if newCapacity < vec.Length then vec.Length else newCapacity;
      HasTableOf(vec.Length, table.Length);
      m := new HashMap<V>(capacity);
      var flag := isInIteration;
      isInIteration := true;
      ghost var v := vec[..vecOffset];
      var index := 0;
      assert v[..0] == [] && Pairs(v[..0]) == [] && KeysDistinct(v);
      hide Inv, Pairs, IsTableCapacity, KeysDistinct;
      while index < vecOffset
        modifies m, m.vec, m.table
        invariant index <= vecOffset && m.Valid()
        invariant m.Contents() == Pairs(v[..index])
        invariant m.vecOffset == m.i <= index && m.refcount == 0 && !m.isInIteration
      {
        assert vec[index] == v[index];
        m.CopyEntry(vec[index], v, index);
        index := index + 1;
      }
      assert v[..|v|] == v;
      isInIteration := flag;
    }

    /** One step of the copy: entry index of the original, if it is live. */
    method CopyEntry(e: Entry<V>, ghost v: seq<Entry<V>>, ghost index: nat)
      requires Valid() && refcount == 0 && !isInIteration
      requires index < |v| <= vec.Length && v[index] == e && KeysDistinct(v)
      requires Contents() == Pairs(v[..index]) && vecOffset == i <= index
      modifies this, vec, table
      ensures Valid() && refcount == 0 && !isInIteration
      ensures Contents() == Pairs(v[..index + 1]) && vecOffset == i <= index + 1
      decreases 1, 1
    {
      PairsAppend(v[..index], e);
      assert v[..index + 1] == v[..index] + [e];
      match e {
        case Dead =>
        case Live(key, value, _) =>
          NoEarlierKey(v, index);
          AddCopied(key, value);
      }
    }

    /** Adding to a copy that still has room never replaces it. */
    method AddCopied(key: HString, value: V)
      requires Valid() && refcount == 0 && !isInIteration
      requires vecOffset == i < vec.Length && !Has(Contents(), key)
      modifies this, vec, table
      ensures Valid() && refcount == 0 && !isInIteration
      ensures Contents() == old(Contents()) + [Pair(key, value)]
      ensures vecOffset == i == old(i) + 1
      decreases 1, 0
    {
      LoadBelowMax(i, vec.Length, table.Length);
      var m, ok := Add(key, value);
    }

    /**
     A map that is full, loaded or shared is replaced first. Other holders of a shared map keep what they had,
     unless the map is being iterated over: then it is never replaced, and they see the new entry.
     */
    method Add(key: HString, value: V) returns (m: HashMap<V>, ok: bool)
      requires Valid() && RehashFits(false) && RoomFor(key)
      modifies this, vec, table
      ensures m.Valid()
      ensures ok <==> !Has(old(Contents()), key)
      ensures m.Contents() == if ok then old(Contents()) + [Pair(key, value)] else old(Contents())
      ensures old(NeedsRehash(false)) ==> Successor(m) && LeftBehind()
      ensures !old(NeedsRehash(false)) ==> m == this && refcount == old(refcount) && isInIteration == old(isInIteration)
      ensures !old(NeedsRehash(false)) ==> vecOffset == if ok then old(vecOffset) + 1 else old(vecOffset)
      ensures !old(NeedsRehash(false)) ==> i == if ok then old(i) + 1 else old(i)
      ensures old(refcount) > 1 ==> Valid()
      ensures old(refcount) > 1 ==>
        (Contents() == old(Contents()) <==> !old(isInIteration) || Has(old(Contents()), key))
      ensures old(Alone()) ==>
        m.ShapeNow() == if ok then Appended(old(ShapeNow())) else Rehashed(old(ShapeNow()), false)
      decreases if NeedsRehash(false) then 2 else 0, 1
    {
      m := Rehash(false);
      var o := m.FindEntry(key);
      if o.entry.Some? || !o.emptyFound {
        return m, false;
      }
      m.AddAtTableOffset(key, value, o.emptyOffset);
      ok := true;
    }

    method Rehash(force: bool) returns (m: HashMap<V>)
      requires Valid() && RehashFits(force)
      modifies this`isInIteration, this`refcount, this`freed
      ensures m.Valid() && m.Contents() == old(Contents()) && m.i == old(i)
      ensures if old(NeedsRehash(force))
        then Successor(m) && LeftBehind() && m.vecOffset == m.i && m.i + 2 <= m.vec.Length
          && Chosen(i, vec.Length, m.vec.Length)
        else m == this && unchanged(this)
      ensures old(Alone()) ==> m.ShapeNow() == Rehashed(old(ShapeNow()), force)
      decreases if NeedsRehash(force) then 2 else 0, 0
    {
      hide Inv, Pairs, IsTableCapacity, Chosen, LoadFactor, NextCapacity;
      m := this;
      TableLargerThanVector(vec.Length, table.Length);
      Counted();
      ghost var before := ShapeNow();
      if isInIteration {
        return;
      }
      var force' := force || refcount > 1;
      if force' || vecOffset == vec.Length || LoadFactor(i, table.Length) > MAX_LOAD_FACTOR {
        m := Replace();
      }
      if old(refcount) <= 1 { RehashIs(before, table.Length, force, m.ShapeNow()); }
    }

    /** The copy that takes the place of the map. */
    method Replace() returns (m: HashMap<V>)
      requires Valid() && !isInIteration && i + 1 < REHASH_LIMIT
      modifies this`isInIteration, this`refcount, this`freed
      ensures m.Valid() && m.Contents() == old(Contents()) && m.i == old(i)
      ensures Successor(m) && LeftBehind() && m.vecOffset == m.i && m.i + 2 <= m.vec.Length
      ensures Chosen(i, vec.Length, m.vec.Length)
      decreases 1, 3
    {
      hide Inv, Pairs, IsTableCapacity, HasTable, OrThree;
      var log2 := ChooseVecCapacityLog2(i + 1);
      RehashRoom(i, log2);
      m := CopyCtor(Pow2(log2));
      if refcount >= 1 {
        m.AddRef();
      }
      DelRef();
    }

    lemma Counted()
      requires Valid()
      ensures i <= vecOffset <= vec.Length
    {
      PairsBound(vec[..vecOffset]);
    }

    /** Another holder of a shared map sees the update only if the map is being iterated over. */
    method Update(key: HString, value: V) returns (m: HashMap<V>)
      requires Valid() && RehashFits(false) && RoomFor(key)
      modifies this, vec, table
      ensures m.Valid()
      ensures m.Contents() == Put(old(Contents()), key, value)
      ensures if old(NeedsRehash(false)) then Successor(m) && LeftBehind()
        else m == this && refcount == old(refcount) && isInIteration == old(isInIteration)
      ensures old(refcount) > 1 ==> Valid()
      ensures old(refcount) > 1 ==>
        (Contents() == old(Contents()) <==> !old(isInIteration) || Find(old(Contents()), key) == Some(value))
    {
      PutUnchanged(Contents(), key, value);
      m := Rehash(false);
      m.UpdateEntry(key, value);
    }

    /** The part after the rehash: overwrites the value in place, or appends an entry. */
    method UpdateEntry(key: HString, value: V)
      requires Valid() && (vecOffset < vec.Length || Has(Contents(), key))
      modifies this`i, this`vecOffset, vec, table
      ensures Valid() && Contents() == Put(old(Contents()), key, value)
    {
      ghost var v, t := vec[..vecOffset], table[..];
      PairsDistinct(v);
      PutKeepsPositions(Pairs(v), key, value);
      var o := FindEntry(key);
      match o.entry {
        case Some(j) =>
          UpdateKeepsInv(v, t, j, value);
          PairsPut(v, j, key, value);
          vec[j] := vec[j].(value := value);
          assert vec[..vecOffset] == v[j := v[j].(value := value)];
          assert |Pairs(v)| == i;
        case None =>
          AddAtTableOffset(key, value, o.emptyOffset);
      }
    }

    method Remove(key: HString) returns (m: HashMap<V>)
      requires Valid() && RehashFits(LoadFactor(i, table.Length) < MIN_LOAD_FACTOR)
      modifies this, vec, table
      ensures m.Valid()
      ensures m.Contents() == Del(old(Contents()), key)
      ensures old(NeedsRehash(LoadFactor(i, table.Length) < MIN_LOAD_FACTOR)) ==> Successor(m) && LeftBehind()
      ensures !old(NeedsRehash(LoadFactor(i, table.Length) < MIN_LOAD_FACTOR)) ==>
        m == this && refcount == old(refcount) && isInIteration == old(isInIteration) && vecOffset == old(vecOffset)
      ensures old(refcount) > 1 ==> Valid()
      ensures old(refcount) > 1 ==>
        (Contents() == old(Contents()) <==> !old(isInIteration) || !Has(old(Contents()), key))
      ensures old(Alone()) && Has(old(Contents()), key) ==> m.ShapeNow() == Removed(old(ShapeNow()))
    {
      hide Inv, Pairs, IsTableCapacity, LoadFactor, Light, Find, Del, Rehashed;
      TableLargerThanVector(vec.Length, table.Length);
      LightIs(i, vec.Length, table.Length);
      DelUnchanged(Contents(), key);
      m := Rehash(LoadFactor(i, table.Length) < MIN_LOAD_FACTOR);
      m.RemoveEntry(key);
    }

    /** The part after the rehash: a tombstone in the table, a dead entry in the vector. */
    method RemoveEntry(key: HString)
      requires Valid()
      modifies this`i, vec, table
      ensures Valid() && Contents() == Del(old(Contents()), key)
      ensures i == if Has(old(Contents()), key) then old(i) - 1 else old(i)
    {
      ghost var v, t := vec[..vecOffset], table[..];
      var o := FindEntry(key);
      match o.entry {
        case None =>
          DelAbsent(Pairs(v), key);
        case Some(j) =>
          RemoveKeepsInv(v, t, j);
          PairsDel(v, j, key);
          table[o.entryOffset] := Tombstone;
          vec[j] := Dead;
          i := i - 1;
          assert vec[..vecOffset] == v[j := Dead];
          assert table[..] == t[o.entryOffset := Tombstone];
      }
    }

    predicate IsSparse()
      reads this
    {
      vecOffset != i
    }

    method RebuildReferences()
      requires vecOffset == i <= vec.Length
      requires OwnCells(vec[..vecOffset], table[..])
      modifies table
      ensures Repointed(vec[..vecOffset], old(table[..]), table[..])
    {
      var n := 0;
      ghost var v := vec[..vecOffset];
      while n < vecOffset
        invariant n <= vecOffset
        invariant forall j :: 0 <= j < n ==> table[v[j].offset] == Ref(j)
        invariant forall p :: 0 <= p < table.Length ==> (table[p] == Null <==> old(table[p]) == Null)
      {
        table[vec[n].offset] := Ref(n);
        n := n + 1;
      }
    }

    /**
     handlebars_map_sort and handlebars_map_sort_r, which differ only in how cmp gets its context. During an
     iteration other holders see the new order; what was sorted before may change only where cmp ties.
     */
    method Sort(cmp: (Pair<V>, Pair<V>) -> int) returns (m: HashMap<V>)
      requires Valid() && RehashFits(IsSparse())
      requires isInIteration ==> !IsSparse()
      requires SortR.Orders(cmp, Contents())
      modifies this, vec, table
      ensures m.Valid()
      ensures SortR.Sorted(cmp, m.Contents())
      ensures multiset(m.Contents()) == multiset(old(Contents()))
      ensures forall k :: Find(m.Contents(), k) == Find(old(Contents()), k)
      ensures !m.IsSparse()
      ensures if old(NeedsRehash(IsSparse())) then Successor(m) && LeftBehind()
        else m == this && refcount == old(refcount) && isInIteration == old(isInIteration)
      ensures old(refcount) > 1 ==> Valid()
      ensures old(refcount) > 1 && Contents() == old(Contents()) ==>
        !old(isInIteration) || SortR.Sorted(cmp, old(Contents()))
      ensures old(refcount) > 1 && !old(isInIteration) ==> Contents() == old(Contents())
      ensures old(refcount) > 1 && SortR.Sorted(cmp, old(Contents())) && SortR.NoTies(cmp, old(Contents())) ==>
        Contents() == old(Contents())
      ensures old(Alone()) ==> m.ShapeNow() == MapShape.Sorted(old(ShapeNow()))
    {
      m := Rehash(IsSparse());
      m.SortDense(cmp);
      SortR.SortedOnce(cmp, old(Contents()), m.Contents());
    }

    /** The part after the rehash: the vector has no dead entries. */
    method SortDense(cmp: (Pair<V>, Pair<V>) -> int)
      requires Valid() && !IsSparse()
      requires SortR.Orders(cmp, Contents())
      modifies vec, table
      ensures Valid()
      ensures SortR.Sorted(cmp, Contents())
      ensures multiset(Contents()) == multiset(old(Contents()))
      ensures forall k :: Find(Contents(), k) == Find(old(Contents()), k)
    {
      ghost var v, t := vec[..vecOffset], table[..];
      PairsBound(v);
      EntriesOrdered(v, cmp);
      SortR.Sort(vec, i, KvCompare(cmp));
      ghost var v' := vec[..vecOffset];
      SortedOffsets(v, t, v');
      RebuildReferences();
      SortKeepsInv(v, t, v', table[..]);
      SortedPairs(v, v', cmp);
    }
  }

  /** Every entry is live and has a used table cell that no other entry has. */
  ghost predicate OwnCells<V>(vec: seq<Entry<V>>, table: seq<Slot>) {
    && (forall j :: 0 <= j < |vec| ==> vec[j].Live? && vec[j].offset < |table| && table[vec[j].offset] != Null)
    && (forall a, b :: 0 <= a < b < |vec| ==> vec[a].offset != vec[b].offset)
  }

  // ---- small facts the methods use

  lemma HasTableOf(elements: nat, cap: nat)
    requires IsTableCapacity(elements, cap)
    ensures HasTable(elements)
  {
    forall c | c in CAPACITY_TABLE ensures c <= 1610612741 {
    }
  }

  lemma LoadBelowMax(i: nat, elements: nat, cap: nat)
    requires IsTableCapacity(elements, cap) && cap > 0 && i < elements
    ensures LoadFactor(i, cap) <= MAX_LOAD_FACTOR
  {
    if LoadFactor(i, cap) > MAX_LOAD_FACTOR {
      LoadAboveMaxMeansFull(i, elements, cap);
    }
  }

  lemma NoEarlierKey<V>(v: seq<Entry<V>>, n: nat)
    requires KeysDistinct(v) && n < |v| && v[n].Live?
    ensures !Has(Pairs(v[..n]), v[n].key)
  {
    NotInPairs(v[..n], v[n].key);
  }

  lemma EntriesOrdered<V>(v: seq<Entry<V>>, cmp: (Pair<V>, Pair<V>) -> int)
    requires forall j :: 0 <= j < |v| ==> v[j].Live?
    requires SortR.Orders(cmp, Pairs(v))
    ensures SortR.Orders(KvCompare(cmp), v)
  {
    forall x | x in v ensures x.Live? && Pair(x.key, x.value) in Pairs(v) {
      PairsMembers(v, Pair(x.key, x.value));
    }
  }

  lemma SortedPairs<V>(v: seq<Entry<V>>, v': seq<Entry<V>>, cmp: (Pair<V>, Pair<V>) -> int)
    requires multiset(v) == multiset(v') && KeysDistinct(v) && KeysDistinct(v')
    requires forall j :: 0 <= j < |v'| ==> v'[j].Live?
    requires SortR.Sorted(KvCompare(cmp), v')
    ensures |Pairs(v')| == |Pairs(v)| && multiset(Pairs(v')) == multiset(Pairs(v))
    ensures SortR.Sorted(cmp, Pairs(v'))
    ensures forall k :: Find(Pairs(v'), k) == Find(Pairs(v), k)
  {
    PermutedPairs(v, v');
    assert |multiset(Pairs(v))| == |multiset(Pairs(v'))|;
    PairsOfDense(v');
    PairsDistinct(v);
    PairsDistinct(v');
    forall k ensures Find(Pairs(v'), k) == Find(Pairs(v), k) {
      PermutationKeepsFind(Pairs(v), Pairs(v'), k);
    }
  }

  lemma SortedOffsets<V>(v: seq<Entry<V>>, t: seq<Slot>, v': seq<Entry<V>>)
    requires Inv(v, t) && multiset(v) == multiset(v')
    requires forall j :: 0 <= j < |v| ==> v[j].Live?
    ensures |v'| == |v| && OwnCells(v', t)
  {
    assert |multiset(v)| == |multiset(v')|;
    forall j | 0 <= j < |v'| ensures v'[j].Live? && v'[j].offset < |t| && t[v'[j].offset] != Null {
      var l := PermutedEntry(v', v, j);
    }
    forall a, b | 0 <= a < b < |v'| ensures v'[a].offset != v'[b].offset {
      SamePlace(v, t, v', a, b);
    }
  }

  lemma SamePlace<V>(v: seq<Entry<V>>, t: seq<Slot>, v': seq<Entry<V>>, a: nat, b: nat)
    requires Inv(v, t) && multiset(v) == multiset(v')
    requires forall j :: 0 <= j < |v| ==> v[j].Live?
    requires a < b < |v'| && v'[a].Live? && v'[b].Live?
    ensures v'[a].offset != v'[b].offset
  {
    var x := PermutedEntry(v', v, a);
    var y := PermutedEntry(v', v, b);
    if v'[a] == v'[b] {
      // an entry occurs once in v, so it cannot occur twice in v'
      OccursOnce(v, x);
      OccursTwice(v', a, b);
    }
  }

  lemma OccursOnce<V>(v: seq<Entry<V>>, x: nat)
    requires KeysDistinct(v) && x < |v| && v[x].Live?
    ensures multiset(v)[v[x]] == 1
  {
    assert v == v[..x] + [v[x]] + v[x + 1..];
    assert v[x] !in v[..x] && v[x] !in v[x + 1..];
    assert multiset(v) == multiset(v[..x]) + multiset{v[x]} + multiset(v[x + 1..]);
  }

  lemma OccursTwice<T>(s: seq<T>, a: nat, b: nat)
    requires a < b < |s| && s[a] == s[b]
    ensures multiset(s)[s[a]] >= 2
  {
    assert s == s[..b] + [s[b]] + s[b + 1..];
    assert s[..b][a] == s[a] && s[a] in multiset(s[..b]);
    assert multiset(s) == multiset(s[..b]) + multiset{s[b]} + multiset(s[b + 1..]);
  }
}

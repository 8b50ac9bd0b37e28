/** The in-memory module cache of src/handlebars_cache_simple.c, on top of the hash map. */
module CacheSimple {
  import opened HbsString
  import opened Options
  import opened AssocList
  import MapCapacity
  import opened MapShape
  import HashMap
  import OpenAddressing
  import SortR

  /** A compiled module as far as the cache is concerned: when it was last used and how big it is. */
  class Module {
    var ts: int
    const size: nat

    constructor (ts: int, size: nat)
      ensures this.ts == ts && this.size == size
    {
      this.ts, this.size := ts, size;
    }
  }

  type Entries = seq<Pair<Module>>

  /** The time stamps of some modules at one moment. */
  type Stamps = map<Module, int>

  function Ts(stamps: Stamps, m: Module): int {
    if m in stamps then stamps[m] else 0
  }

  /** stamps is what its modules carry now. */
  ghost predicate Current(stamps: Stamps)
    reads stamps.Keys
  {
    forall m :: m in stamps ==> stamps[m] == m.ts
  }

  /** The stamps of exactly the modules of s. */
  ghost function StampsOf(s: Entries): Stamps
    reads set x | x in s :: x.value
  {
    map m: Module | m in (set x | x in s :: x.value) :: m.ts
  }

  /** Every entry of s has a stamp. */
  ghost predicate Covers(stamps: Stamps, s: Entries) {
    forall x :: x in s ==> x.value in stamps
  }

  /** Limits of struct handlebars_cache; a negative age or a zero count means no limit. */
  datatype Limits = Limits(maxAge: real, maxEntries: nat, maxSize: nat)

  predicate ShouldGc(l: Limits, entries: nat, size: nat) {
    (l.maxSize > 0 && size > l.maxSize) || (l.maxEntries > 0 && entries > l.maxEntries)
  }

  predicate TooOld(l: Limits, ts: int, now: int) {
    l.maxAge >= 0.0 && (now - ts) as real >= l.maxAge
  }

  function CompareTimes(a: int, b: int): int {
    if a > b then 1 else if a < b then -1 else 0
  }

  /** cache_compare, over the time stamps the modules carry when the sort starts. */
  function CompareBy(stamps: Stamps): (Pair<Module>, Pair<Module>) -> int {
    (a: Pair<Module>, b: Pair<Module>) => CompareTimes(Ts(stamps, a.value), Ts(stamps, b.value))
  }

  function TotalSize(s: Entries): nat {
    if s == [] then 0 else s[0].value.size + TotalSize(s[1..])
  }

  ghost predicate OldestFirst(s: Entries, stamps: Stamps) {
    forall a, b :: 0 <= a < b < |s| ==> Ts(stamps, s[a].value) <= Ts(stamps, s[b].value)
  }

  /** sorted is s in order of last use. */
  ghost predicate OldestFirstOf(sorted: Entries, s: Entries, stamps: Stamps) {
    multiset(sorted) == multiset(s) && OldestFirst(sorted, stamps)
  }

  // ---- which entries a collection drops

  /** How many entries the collector drops from the front before it meets one to keep. */
  function Evicted(l: Limits, now: int, s: Entries, stamps: Stamps): (n: nat)
    ensures n <= |s|
  {
    if s != [] && (TooOld(l, Ts(stamps, s[0].value), now) || ShouldGc(l, |s|, TotalSize(s))) then
      1 + Evicted(l, now, s[1..], stamps)
    else 0
  }

  /** No limit is exceeded and nothing is too old. */
  ghost predicate Clean(l: Limits, now: int, s: Entries, stamps: Stamps) {
    !ShouldGc(l, |s|, TotalSize(s)) && forall x :: x in s ==> !TooOld(l, Ts(stamps, x.value), now)
  }

  /**
   Oldest-first eviction: what is dropped is the shortest prefix that leaves a clean cache,
   and nothing dropped was used later than anything kept.
   */
  lemma {:induction false} EvictsShortestPrefix(l: Limits, now: int, s: Entries, stamps: Stamps)
    requires OldestFirst(s, stamps)
    ensures Clean(l, now, s[Evicted(l, now, s, stamps)..], stamps)
    ensures forall m :: 0 <= m < Evicted(l, now, s, stamps) ==> !Clean(l, now, s[m..], stamps)
    ensures forall a, b :: 0 <= a < Evicted(l, now, s, stamps) <= b < |s| ==>
      Ts(stamps, s[a].value) <= Ts(stamps, s[b].value)
  {
    var n := Evicted(l, now, s, stamps);
    if n == 0 {
      assert s[0..] == s;
      forall x | x in s ensures !TooOld(l, Ts(stamps, x.value), now) {
        var j :| 0 <= j < |s| && s[j] == x;
        YoungerKept(l, now, Ts(stamps, s[0].value), Ts(stamps, x.value));
      }
    } else {
      var rest := s[1..];
      EvictsShortestPrefix(l, now, rest, stamps);
      assert s[n..] == rest[n - 1..];
      forall m | 0 <= m < n ensures !Clean(l, now, s[m..], stamps) {
        if m == 0 {
          assert s[0..] == s && s[0] in s;
        } else {
          assert s[m..] == rest[m - 1..];
        }
      }
    }
  }

  /** Stopping at the first entry young enough is sound: later ones are younger still. */
  lemma YoungerKept(l: Limits, now: int, older: int, younger: int)
    requires older <= younger && !TooOld(l, older, now)
    ensures !TooOld(l, younger, now)
  {
  }

  /** No more entries, and no bigger, than there may be; zero is no limit. */
  predicate WithinLimits(l: Limits, entries: nat, size: nat) {
    (l.maxEntries == 0 || entries <= l.maxEntries) && (l.maxSize == 0 || size <= l.maxSize)
  }

  /** As old as the age limit or older, if there is one. */
  predicate Aged(l: Limits, age: int) {
    0.0 <= l.maxAge <= age as real
  }

  lemma CleanInNumbers(l: Limits, now: int, s: Entries, stamps: Stamps, m: nat)
    requires OldestFirst(s, stamps) && m <= |s|
    ensures Clean(l, now, s[m..], stamps) <==>
      WithinLimits(l, |s| - m, TotalSize(s[m..])) && (m < |s| ==> !Aged(l, now - Ts(stamps, s[m].value)))
    ensures Clean(l, now, s[m..], stamps) ==> forall k :: m <= k < |s| ==> !Aged(l, now - Ts(stamps, s[k].value))
  {
    hide TotalSize, Ts;
    var rest := s[m..];
    if m < |s| { assert rest[0] == s[m] && s[m] in rest; }
    forall x | x in rest && m < |s| ensures Ts(stamps, s[m].value) <= Ts(stamps, x.value) {
      var k :| 0 <= k < |rest| && rest[k] == x;
      assert s[m + k] == x;
    }
    forall k | m <= k < |s| ensures s[k] in rest {
      assert rest[k - m] == s[k];
    }
  }

  lemma {:induction false} TotalSizeShrinks(s: Entries, m: nat)
    requires m <= |s|
    ensures TotalSize(s[m..]) <= TotalSize(s)
  {
    if m > 0 {
      TotalSizeShrinks(s[1..], m - 1);
      assert s[1..][m - 1..] == s[m..];
    } else {
      assert s[0..] == s;
    }
  }

  /**
   What a collection drops, in numbers. Everything left is younger than the age limit, if there is one, and within the
   other limits. An entry goes only if it is as old as the limit or older, or those from it on exceed another limit;
   so while no other limit is exceeded, exactly those go that are as old as the age limit.
   */
  lemma EvictedInNumbers(l: Limits, now: int, s: Entries, stamps: Stamps)
    requires OldestFirst(s, stamps)
    ensures var n := Evicted(l, now, s, stamps);
      && WithinLimits(l, |s| - n, TotalSize(s[n..]))
      && (forall m :: n <= m < |s| ==> !Aged(l, now - Ts(stamps, s[m].value)))
      && (forall m :: 0 <= m < n ==>
        Aged(l, now - Ts(stamps, s[m].value)) || !WithinLimits(l, |s| - m, TotalSize(s[m..])))
      && (WithinLimits(l, |s|, TotalSize(s)) ==> forall m :: 0 <= m < n ==> Aged(l, now - Ts(stamps, s[m].value)))
  {
    hide TotalSize, Ts, Clean, Aged;
    var n := Evicted(l, now, s, stamps);
    EvictsShortestPrefix(l, now, s, stamps);
    CleanInNumbers(l, now, s, stamps, n);
    forall m | 0 <= m < n
      ensures Aged(l, now - Ts(stamps, s[m].value)) || !WithinLimits(l, |s| - m, TotalSize(s[m..]))
      ensures WithinLimits(l, |s|, TotalSize(s)) ==> Aged(l, now - Ts(stamps, s[m].value))
    {
      assert !Clean(l, now, s[m..], stamps);
      CleanInNumbers(l, now, s, stamps, m);
      TotalSizeShrinks(s, m);
    }
  }

  /** The same from the times the modules carry. */
  lemma DroppedInNumbers(l: Limits, now: int, s: Entries, stamps: Stamps)
    requires OldestFirst(s, stamps) && Current(stamps) && Covers(stamps, s)
    ensures var n := Evicted(l, now, s, stamps);
      && (l.maxEntries > 0 ==> |s[n..]| <= l.maxEntries) && (l.maxSize > 0 ==> TotalSize(s[n..]) <= l.maxSize)
      && (l.maxAge >= 0.0 ==> forall x :: x in s[n..] ==> (now - x.value.ts) as real < l.maxAge)
      && (WithinLimits(l, |s|, TotalSize(s)) ==>
        forall m :: 0 <= m < n ==> l.maxAge >= 0.0 && (now - s[m].value.ts) as real >= l.maxAge)
      && (WithinLimits(l, |s|, TotalSize(s)) && l.maxAge < 0.0 ==> n == 0)
  {
    hide TotalSize, Evicted;
    var n := Evicted(l, now, s, stamps);
    EvictedInNumbers(l, now, s, stamps);
    forall m | 0 <= m < |s| ensures Ts(stamps, s[m].value) == s[m].value.ts {
      assert s[m] in s;
    }
    if n > 0 { assert s[0] in s; }
  }

  lemma {:induction false} TotalSizeConcat(a: Entries, b: Entries)
    ensures TotalSize(a + b) == TotalSize(a) + TotalSize(b)
  {
    if a == [] {
      assert a + b == b;
    } else {
      assert (a + b)[1..] == a[1..] + b;
      TotalSizeConcat(a[1..], b);
    }
  }

  lemma {:induction false} TotalSizePermuted(a: Entries, b: Entries)
    requires multiset(a) == multiset(b)
    ensures TotalSize(a) == TotalSize(b)
  {
    if a == [] {
      assert |multiset(a)| == |multiset(b)|;
    } else {
      var l := SortR.TakeOne(a, b);
      TotalSizePermuted(a[1..], b[..l] + b[l + 1..]);
      TotalSizeConcat(b[..l], b[l + 1..]);
      TotalSizeConcat(b[..l], [b[l]] + b[l + 1..]);
      assert b == b[..l] + ([b[l]] + b[l + 1..]);
    }
  }

  lemma CoversPermuted(stamps: Stamps, s: Entries, t: Entries)
    requires Covers(stamps, s) && multiset(s) == multiset(t)
    ensures |s| == |t| && Covers(stamps, t)
  {
    SortR.SameMembers(s, t);
  }

  /** Whether entry n goes, once those in front of it are gone. */
  lemma EvictOne(l: Limits, now: int, s: Entries, stamps: Stamps, n: nat)
    requires n < |s|
    ensures TotalSize(s[n..]) == s[n].value.size + TotalSize(s[n + 1..])
    ensures Evicted(l, now, s[n..], stamps) ==
      if TooOld(l, Ts(stamps, s[n].value), now) || ShouldGc(l, |s| - n, TotalSize(s[n..]))
        then 1 + Evicted(l, now, s[n + 1..], stamps) else 0
  {
    hide TooOld, ShouldGc;
    assert s[n..][0] == s[n] && s[n..][1..] == s[n + 1..];
  }

  lemma NothingEvicted(l: Limits, now: int, stamps: Stamps)
    ensures Evicted(l, now, [], stamps) == 0
  {
  }

  lemma CompareByOrders(stamps: Stamps, s: Entries)
    ensures SortR.Orders(CompareBy(stamps), s)
  {
    var cmp := CompareBy(stamps);
    forall x, y | x in s && y in s ensures cmp(x, y) == CompareTimes(Ts(stamps, x.value), Ts(stamps, y.value)) {
    }
  }

  lemma SortedIsOldestFirst(stamps: Stamps, s: Entries)
    requires SortR.Sorted(CompareBy(stamps), s)
    ensures OldestFirst(s, stamps)
  {
    var cmp := CompareBy(stamps);
    forall a, b | 0 <= a < b < |s| ensures Ts(stamps, s[a].value) <= Ts(stamps, s[b].value) {
      assert cmp(s[a], s[b]) <= 0;
    }
  }

  lemma ByAge(stamps: Stamps, s: Entries, t: Entries)
    requires Covers(stamps, s) && multiset(s) == multiset(t) && SortR.Sorted(CompareBy(stamps), t)
    ensures |s| == |t| && TotalSize(s) == TotalSize(t) && Covers(stamps, t) && OldestFirst(t, stamps)
  {
    CoversPermuted(stamps, s, t);
    TotalSizePermuted(s, t);
    SortedIsOldestFirst(stamps, t);
  }

  class SimpleCache {
    var entries: HashMap.HashMap<Module>
    var limits: Limits
    var currentEntries: nat
    var currentSize: nat
    var hits: nat
    var misses: nat

    ghost predicate Valid()
      reads this, entries, entries.vec, entries.table
    {
      MapReady() && Conserved()
    }

    ghost predicate MapReady()
      reads this, entries, entries.vec, entries.table
    {
      entries.Valid() && entries.refcount == 0 && !entries.isInIteration
    }

    /** The counters are exactly the number of entries and the sum of their sizes. */
    ghost predicate Conserved()
      reads this, entries, entries.vec
    {
      && entries.vecOffset <= entries.vec.Length
      && currentEntries == |entries.Contents()|
      && currentSize == TotalSize(entries.Contents())
    }

    ghost function Contents(): Entries
      reads this, entries, entries.vec
      requires entries.vecOffset <= entries.vec.Length
    {
      entries.Contents()
    }

    twostate predicate SameOrNewMap()
      reads this
    {
      entries == old(entries) || (fresh(entries) && fresh(entries.vec) && fresh(entries.table))
    }

    constructor (limits: Limits)
      ensures Valid() && fresh(entries) && fresh(entries.vec) && fresh(entries.table)
      ensures Contents() == [] && this.limits == limits && hits == misses == 0
      ensures entries.vec.Length == 32 && entries.vecOffset == entries.i == 0
      ensures entries.ShapeNow() == NEW_SHAPE
    {
      entries := new HashMap.HashMap<Module>(32);
      this.limits := limits;
      currentEntries, currentSize, hits, misses := 0, 0, 0, 0;
    }

    method SortByAge() returns (ghost stamps: Stamps)
      requires Valid() && entries.i + 1 < MapCapacity.REHASH_LIMIT
      modifies this`entries, entries, entries.vec, entries.table
      ensures Valid() && !entries.IsSparse()
      ensures multiset(Contents()) == multiset(old(Contents()))
      ensures forall k :: Find(Contents(), k) == Find(old(Contents()), k)
      ensures stamps == old(StampsOf(Contents()))
      ensures Current(stamps) && Covers(stamps, Contents()) && OldestFirst(Contents(), stamps)
      ensures SameOrNewMap()
      ensures entries.ShapeNow() == MapShape.Sorted(old(entries.ShapeNow()))
    {
      hide OpenAddressing.Inv, OpenAddressing.Pairs, MapCapacity.IsTableCapacity, Find, SortR.Sorted, SortR.Orders,
        StampsOf;
      stamps := SortEntries();
      ByAge(stamps, old(entries.Contents()), entries.Contents());
    }

    method SortEntries() returns (ghost stamps: Stamps)
      requires MapReady() && entries.i + 1 < MapCapacity.REHASH_LIMIT
      modifies this`entries, entries, entries.vec, entries.table
      ensures MapReady() && !entries.IsSparse()
      ensures multiset(Contents()) == multiset(old(Contents()))
      ensures forall k :: Find(Contents(), k) == Find(old(Contents()), k)
      ensures SortR.Sorted(CompareBy(stamps), Contents())
      ensures stamps == old(StampsOf(Contents())) && Current(stamps) && Covers(stamps, old(Contents()))
      ensures SameOrNewMap()
      ensures entries.ShapeNow() == MapShape.Sorted(old(entries.ShapeNow()))
    {
      hide OpenAddressing.Inv, OpenAddressing.Pairs, MapCapacity.IsTableCapacity, Find, SortR.Sorted, SortR.Orders,
        Covers;
      var now := Snapshot();
      stamps := now;
      CompareByOrders(now, entries.Contents());
      entries := entries.Sort(CompareBy(now));
    }

    method Snapshot() returns (now: Stamps)
      requires MapReady()
      ensures now == old(StampsOf(Contents()))
      ensures Current(now) && Covers(now, Contents())
    {
      var modules := set j | 0 <= j < entries.vecOffset && entries.vec[j].Live? :: entries.vec[j].value;
      now := map m: Module | m in modules :: m.ts;
      forall x | x in Contents() ensures x.value in now {
        OpenAddressing.PairsMembers(entries.vec[..entries.vecOffset], x);
      }
      forall j | 0 <= j < entries.vecOffset && entries.vec[j].Live?
        ensures exists x :: x in Contents() && x.value == entries.vec[j].value
      {
        OpenAddressing.PairsMembers(entries.vec[..entries.vecOffset], Pair(entries.vec[j].key, entries.vec[j].value));
      }
    }

    /** cache_gc: sorted is the contents in order of last use, of which the first removed are dropped. */
    method Gc(now: int) returns (removed: nat, ghost sorted: Entries)
      requires Valid() && entries.i + 1 < MapCapacity.REHASH_LIMIT
      modifies this`entries, this`currentEntries, this`currentSize, entries, entries.vec, entries.table
      ensures Valid() && removed <= |sorted| && Contents() == sorted[removed..]
      ensures OldestFirstOf(sorted, old(Contents()), old(StampsOf(Contents())))
      ensures removed == Evicted(limits, now, sorted, old(StampsOf(Contents())))
      ensures Clean(limits, now, Contents(), old(StampsOf(Contents())))
      ensures limits.maxEntries > 0 ==> |Contents()| <= limits.maxEntries
      ensures limits.maxSize > 0 ==> TotalSize(Contents()) <= limits.maxSize
      ensures limits.maxAge >= 0.0 ==> forall x :: x in Contents() ==> (now - x.value.ts) as real < limits.maxAge
      ensures !(0 < limits.maxEntries < old(currentEntries)) && !(0 < limits.maxSize < old(currentSize)) ==>
        && (limits.maxAge < 0.0 ==> removed == 0)
        && forall m :: 0 <= m < removed ==> (now - sorted[m].value.ts) as real >= limits.maxAge
      ensures SameOrNewMap() && entries.vecOffset < entries.vec.Length
      ensures entries.ShapeNow() == Collected(old(entries.ShapeNow()), removed)
    {
      hide Evicted, TotalSize, TooOld, Del, OpenAddressing.Inv, OpenAddressing.Pairs, MapCapacity.IsTableCapacity;
      hide StampsOf, Find, MapShape.Sorted, RemovedTimes, Rehashed, Ts;
      ghost var stamps := SortByAge();
      sorted := entries.Contents();
      var removeKeys := Collect(now, sorted, stamps);
      removed := |removeKeys|;
      EvictsShortestPrefix(limits, now, sorted, stamps);
      DroppedInNumbers(limits, now, sorted, stamps);
      RemoveKeys(removeKeys, sorted);
    }

    /** The iteration of cache_gc: takes entries off the books, oldest first, until one may stay. */
    method Collect(now: int, ghost sorted: Entries, ghost stamps: Stamps) returns (removeKeys: seq<HString>)
      requires Valid() && sorted == Contents() && !entries.IsSparse()
      requires Current(stamps) && Covers(stamps, sorted)
      modifies this`currentEntries, this`currentSize, entries`isInIteration
      ensures !entries.isInIteration
      ensures |removeKeys| == Evicted(limits, now, sorted, stamps)
      ensures forall j :: 0 <= j < |removeKeys| ==> removeKeys[j] == sorted[j].key
      ensures currentEntries == |sorted| - |removeKeys|
      ensures currentSize == TotalSize(sorted[|removeKeys|..])
    {
      hide Evicted, TotalSize, ShouldGc, TooOld, OpenAddressing.Inv, OpenAddressing.Pairs, MapCapacity.IsTableCapacity;
      OpenAddressing.DensePairs(entries.vec[..entries.vecOffset]);
      removeKeys := [];
      assert sorted[0..] == sorted;
      var flag := entries.isInIteration;
      entries.isInIteration := true;
      var index := 0;
      while index < entries.vecOffset
        invariant index <= entries.vecOffset == |sorted| && index == |removeKeys|
        invariant forall j :: 0 <= j < index ==> removeKeys[j] == sorted[j].key
        invariant currentEntries == |sorted| - index && currentSize == TotalSize(sorted[index..])
        invariant Evicted(limits, now, sorted, stamps) == index + Evicted(limits, now, sorted[index..], stamps)
      {
        var compiled := entries.vec[index].value;
        assert sorted[index] == Pair(entries.vec[index].key, compiled) && sorted[index] in sorted;
        EvictOne(limits, now, sorted, stamps, index);
        if TooOld(limits, compiled.ts, now) || ShouldGc(limits, currentEntries, currentSize) {
          removeKeys := removeKeys + [entries.vec[index].key];
          currentEntries := currentEntries - 1;
          currentSize := currentSize - compiled.size;
        } else {
          break;
        }
        index := index + 1;
      }
      assert index == |sorted| ==> sorted[index..] == [] && Evicted(limits, now, [], stamps) == 0 by {
        NothingEvicted(limits, now, stamps);
      }
      entries.isInIteration := flag;
    }

    method RemoveKeys(removeKeys: seq<HString>, ghost sorted: Entries)
      requires MapReady() && entries.i + 1 < MapCapacity.REHASH_LIMIT
      requires entries.Contents() == sorted && |removeKeys| <= |sorted|
      requires forall j :: 0 <= j < |removeKeys| ==> removeKeys[j] == sorted[j].key
      modifies this`entries, entries, entries.vec, entries.table
      ensures MapReady() && entries.Contents() == sorted[|removeKeys|..]
      ensures SameOrNewMap() && entries.vecOffset < entries.vec.Length
      ensures entries.ShapeNow() == Rehashed(RemovedTimes(old(entries.ShapeNow()), |removeKeys|), false)
    {
      hide OpenAddressing.Inv, OpenAddressing.Pairs, MapCapacity.IsTableCapacity, Removed, Rehashed;
      var n := 0;
      while n < |removeKeys|
        invariant n <= |removeKeys|
        invariant entries.ShapeNow() == RemovedTimes(old(entries.ShapeNow()), n)
        invariant MapReady() && entries.i + 1 < MapCapacity.REHASH_LIMIT
        invariant entries.Contents() == sorted[n..]
        invariant SameOrNewMap()
      {
        assert Del(sorted[n..], removeKeys[n]) == sorted[n..][1..] == sorted[n + 1..];
        assert Has(sorted[n..], removeKeys[n]);
        entries := entries.Remove(removeKeys[n]);
        n := n + 1;
      }
      RehashOnce();
    }

    /** A rehash leaves nothing for a second one to do. */
    method RehashOnce()
      requires MapReady() && entries.i + 1 < MapCapacity.REHASH_LIMIT
      modifies this`entries, entries
      ensures MapReady() && entries.Contents() == old(entries.Contents())
      ensures SameOrNewMap() && entries.vecOffset < entries.vec.Length
      ensures entries.ShapeNow() == Rehashed(old(entries.ShapeNow()), false)
    {
      entries := entries.Rehash(false);
      MapCapacity.TableLargerThanVector(entries.vec.Length, entries.table.Length);
      FullOrNot();
    }

    /** A hit is remembered as the module's last use; only the time stamp of that module changes. */
    method CacheFind(tmpl: HString, now: int) returns (r: Option<Module>)
      requires Valid()
      modifies this`hits, this`misses, set x | x in Contents() :: x.value
      ensures Valid() && Contents() == old(Contents()) && r == Find(Contents(), tmpl)
      ensures r.Some? ==> r.value.ts == now && hits == old(hits) + 1 && misses == old(misses)
      ensures r.None? ==> hits == old(hits) && misses == old(misses) + 1
      ensures StampsOf(Contents()) ==
        if r.Some? then old(StampsOf(Contents()))[r.value := now] else old(StampsOf(Contents()))
    {
      ghost var s, before := Contents(), StampsOf(Contents());
      r := entries.Lookup(tmpl);
      match r {
        case Some(compiled) =>
          FoundIsMember(s, tmpl);
          assert Current(before);
          compiled.ts := now;
          assert StampsOf(s) == before[compiled := now];
          hits := hits + 1;
        case None =>
          misses := misses + 1;
      }
    }

    /** The first half of cache_add: a collection if a limit is exceeded. */
    method MakeRoom(gcNow: int) returns (ghost sorted: Entries)
      requires Valid() && entries.i + 1 < MapCapacity.REHASH_LIMIT
      modifies this`entries, this`currentEntries, this`currentSize, entries, entries.vec, entries.table
      ensures Valid() && !ShouldGc(limits, currentEntries, currentSize)
      ensures SameOrNewMap() && entries.i + 1 < MapCapacity.REHASH_LIMIT
      ensures !old(ShouldGc(limits, currentEntries, currentSize)) ==>
        Contents() == old(Contents()) && unchanged(this) && unchanged(entries)
      ensures old(ShouldGc(limits, currentEntries, currentSize)) ==>
        && OldestFirstOf(sorted, old(Contents()), old(StampsOf(Contents())))
        && Contents() == sorted[Evicted(limits, gcNow, sorted, old(StampsOf(Contents())))..]
        && entries.vecOffset < entries.vec.Length
      ensures old(ShouldGc(limits, currentEntries, currentSize)) ==>
        entries.ShapeNow() == Collected(old(entries.ShapeNow()),
          Evicted(limits, gcNow, sorted, old(StampsOf(Contents()))))
    {
      sorted := Contents();
      if ShouldGc(limits, currentEntries, currentSize) {
        var removed;
        removed, sorted := Gc(gcNow);
        assert |multiset(sorted)| == |multiset(old(Contents()))|;
      }
    }

    /**
     kept is what is left of the old contents when the new entry goes in: all of them, or what a
     collection spares. The add throws exactly when kept still has the key. In that case the cache goes
     on pointing at the map it had, which the failed add may already have replaced and freed: the
     cache survives exactly if a collection ran or the vector had room.
     */
    method CacheAdd(tmpl: HString, compiled: Module, gcNow: int, now: int)
      returns (ok: bool, ghost kept: Entries, ghost sorted: Entries)
      requires Valid() && entries.i + 1 < MapCapacity.REHASH_LIMIT
      modifies this`entries, this`currentEntries, this`currentSize, entries, entries.vec, entries.table, compiled`ts
      ensures !old(ShouldGc(limits, currentEntries, currentSize)) ==> kept == old(Contents())
      ensures old(ShouldGc(limits, currentEntries, currentSize)) ==>
        && OldestFirstOf(sorted, old(Contents()), old(StampsOf(Contents())))
        && kept == sorted[Evicted(limits, gcNow, sorted, old(StampsOf(Contents())))..]
      ensures old(ShouldGc(limits, currentEntries, currentSize)) <==>
        0 < limits.maxEntries < old(currentEntries) || 0 < limits.maxSize < old(currentSize)
      ensures limits.maxEntries > 0 ==> |kept| <= limits.maxEntries
      ensures limits.maxSize > 0 ==> TotalSize(kept) <= limits.maxSize
      ensures ok <==> !Has(kept, tmpl)
      ensures compiled.ts == now
      ensures ok ==> Valid() && SameOrNewMap() && Contents() == kept + [Pair(tmpl, compiled)]
      ensures ok && limits.maxEntries > 0 ==> currentEntries <= limits.maxEntries + 1
      ensures ok && limits.maxSize > 0 ==> currentSize <= limits.maxSize + compiled.size
      ensures !ok ==> (Valid() <==>
        old(ShouldGc(limits, currentEntries, currentSize)) || old(entries.vecOffset) < old(entries.vec.Length))
      ensures !ok && Valid() ==> Contents() == kept && SameOrNewMap()
      ensures !ok && !Valid() ==> entries == old(entries) && entries.freed
      ensures ok && !old(ShouldGc(limits, currentEntries, currentSize)) ==>
        old(entries.vecOffset) < old(entries.vec.Length) ==>
          entries == old(entries) && entries.vecOffset == old(entries.vecOffset) + 1
      ensures var was := old(entries.ShapeNow());
        var shape := if !old(ShouldGc(limits, currentEntries, currentSize)) then was
          else Collected(was, Evicted(limits, gcNow, sorted, old(StampsOf(Contents()))));
        && (ok ==> entries.ShapeNow() == Appended(shape))
        && (!ok && Valid() ==> entries.ShapeNow() == shape)
    {
      sorted := MakeRoom(gcNow);
      kept := Contents();
      compiled.ts := now;
      ok := Insert(tmpl, compiled);
    }

    /** The second half of cache_add: the map operation and the bookkeeping, which a throw skips. */
    method Insert(tmpl: HString, compiled: Module) returns (ok: bool)
      requires Valid() && entries.i + 1 < MapCapacity.REHASH_LIMIT
      modifies this`entries, this`currentEntries, this`currentSize, entries, entries.vec, entries.table
      ensures ok <==> !Has(old(Contents()), tmpl)
      ensures ok ==> Valid() && SameOrNewMap() && Contents() == old(Contents()) + [Pair(tmpl, compiled)]
      ensures ok ==> currentEntries == old(currentEntries) + 1 && currentSize == old(currentSize) + compiled.size
      ensures !ok ==> (Valid() <==> old(entries.vecOffset) < old(entries.vec.Length))
      ensures !ok ==> entries == old(entries) && (Valid() || entries.freed)
      ensures ok && old(entries.vecOffset) < old(entries.vec.Length) ==>
        entries == old(entries) && entries.vecOffset == old(entries.vecOffset) + 1
      ensures !ok && Valid() ==> Contents() == old(Contents())
      ensures ok ==> entries.ShapeNow() == Appended(old(entries.ShapeNow()))
      ensures !ok && Valid() ==> entries.ShapeNow() == old(entries.ShapeNow())
    {
      MapCapacity.TableLargerThanVector(entries.vec.Length, entries.table.Length);
      FullOrNot();
      var replaced;
      replaced, ok := entries.Add(tmpl, compiled);
      if ok {
        entries := replaced;
        TotalSizeConcat(old(Contents()), [Pair(tmpl, compiled)]);
        currentEntries := currentEntries + 1;
        currentSize := currentSize + compiled.size;
      }
    }

    /** Outside an iteration, an unshared map needs a rehash exactly when its vector is full. */
    lemma FullOrNot()
      requires MapReady() && entries.table.Length > 0
      ensures entries.NeedsRehash(false) <==> entries.vecOffset == entries.vec.Length
    {
      OpenAddressing.PairsBound(entries.vec[..entries.vecOffset]);
      if entries.vecOffset < entries.vec.Length {
        HashMap.LoadBelowMax(entries.i, entries.vec.Length, entries.table.Length);
      }
    }

    method CacheReset()
      requires Valid()
      modifies this`entries, this`currentEntries, this`currentSize, this`hits, this`misses, entries`freed
      ensures Valid() && Contents() == []
      ensures currentEntries == currentSize == hits == misses == 0
      ensures fresh(entries) && fresh(entries.vec) && fresh(entries.table)
      ensures entries.ShapeNow() == NEW_SHAPE
    {
      entries.freed := true;
      entries := new HashMap.HashMap<Module>(32);
      currentEntries, currentSize, hits, misses := 0, 0, 0, 0;
    }
  }

  // ---- an add that throws and takes the map with it

  function Key(n: nat): HString {
    HString(seq(n + 1, _ => 'k'), n)
  }

  /**
   A cache without limits, filled to its first capacity of 32. Adding a key it has throws, as it should,
   but not before the full map was replaced: the cache is left with a map that has been freed.
   */
  method FullCacheLosesItsMap() returns (cache: SimpleCache)
    ensures fresh(cache) && !cache.Valid() && cache.entries.freed
  {
    cache := FullCache();
    FindNone(cache.Contents(), Key(0));
    assert Eq(cache.Contents()[0].key, Key(0));
    var compiled := new Module(0, 1);
    var ok;
    ghost var kept, sorted;
    ok, kept, sorted := cache.CacheAdd(Key(0), compiled, 0, 0);
  }

  /** A cache without limits that holds 32 keys and has no room for more. */
  method FullCache() returns (cache: SimpleCache)
    ensures fresh(cache) && fresh(cache.entries) && fresh(cache.entries.vec) && fresh(cache.entries.table)
    ensures cache.Valid() && cache.limits == Limits(-1.0, 0, 0)
    ensures cache.entries.vec.Length == cache.entries.vecOffset == cache.entries.i == 32 == |cache.Contents()|
    ensures cache.Contents()[0].key == Key(0)
  {
    hide Evicted, TotalSize, TooOld;
    cache := new SimpleCache(Limits(-1.0, 0, 0));
    for n := 0 to 32
      invariant fresh(cache) && fresh(cache.entries) && fresh(cache.entries.vec) && fresh(cache.entries.table)
      invariant cache.Valid() && cache.limits == Limits(-1.0, 0, 0)
      invariant cache.entries.vec.Length == 32 && cache.entries.vecOffset == cache.entries.i == n == |cache.Contents()|
      invariant forall k :: 0 <= k < n ==> cache.Contents()[k].key == Key(k)
    {
      AddKey(cache, n);
    }
  }

  method AddKey(cache: SimpleCache, n: nat)
    requires cache.Valid() && cache.limits == Limits(-1.0, 0, 0)
    requires cache.entries.vec.Length == 32 && cache.entries.vecOffset == cache.entries.i == n ==
      |cache.Contents()| < 32
    requires forall k :: 0 <= k < n ==> cache.Contents()[k].key == Key(k)
    modifies cache, cache.entries, cache.entries.vec, cache.entries.table
    ensures cache.Valid() && cache.limits == old(cache.limits) && cache.SameOrNewMap()
    ensures cache.entries.vec.Length == 32 && cache.entries.vecOffset == cache.entries.i == n + 1 == |cache.Contents()|
    ensures forall k :: 0 <= k <= n ==> cache.Contents()[k].key == Key(k)
  {
    FindNone(cache.Contents(), Key(n));
    var compiled := new Module(0, 1);
    var ok;
    ghost var kept, sorted;
    ok, kept, sorted := cache.CacheAdd(Key(n), compiled, 0, 0);
  }

  lemma {:induction false} FoundIsMember(s: Entries, k: HString)
    ensures Has(s, k) ==> exists x :: x in s && Find(s, k) == Some(x.value)
  {
    if s != [] {
      FoundIsMember(s[1..], k);
      assert s[0] in s && forall x :: x in s[1..] ==> x in s;
    }
  }
}

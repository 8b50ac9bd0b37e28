/**
 How many entries a map holds, how much of its vector is used, and how long the vector is: what rehashing depends
 on, and how each operation changes it on a map nobody shares and nobody is iterating over.
 */
module MapShape {
  import opened MapCapacity

  datatype Shape = Shape(live: nat, used: nat, capacity: nat) {
    predicate Full() {
      used == capacity
    }

    predicate Sparse() {
      used != live
    }
  }

  const NEW_SHAPE: Shape := Shape(0, 0, 32)

  /** The number of binary digits of n. */
  function Digits(n: nat): nat {
    if n == 0 then 0 else 1 + Digits(n / 2)
  }

  /** The vector capacity a rehash of live entries ends up with. */
  function NextCapacity(live: nat, current: nat): nat {
    var power := Pow2(Digits(OrThree(live + 1)));
    if power < current then current else power
  }

  /** The load factor of so many entries is below the lower limit. */
  ghost predicate Light(live: nat, capacity: nat) {
    exists cap :: IsTableCapacity(capacity, cap) && cap > 0 && LoadFactor(live, cap) < MIN_LOAD_FACTOR
  }

  /** handlebars_map_rehash */
  function Rehashed(s: Shape, force: bool): Shape {
    if force || s.Full() then Shape(s.live, s.live, NextCapacity(s.live, s.capacity)) else s
  }

  /** Adding a key that is not there. */
  function Appended(s: Shape): Shape {
    var r := Rehashed(s, false);
    Shape(r.live + 1, r.used + 1, r.capacity)
  }

  /** Removing a key that is there. */
  ghost function Removed(s: Shape): Shape {
    var r := Rehashed(s, Light(s.live, s.capacity));
    if r.live == 0 then r else Shape(r.live - 1, r.used, r.capacity)
  }

  ghost function RemovedTimes(s: Shape, n: nat): Shape {
    if n == 0 then s else Removed(RemovedTimes(s, n - 1))
  }

  function Sorted(s: Shape): Shape {
    Rehashed(s, s.Sparse())
  }

  /** Sorting, removing so many keys, and rehashing once more. */
  ghost function Collected(s: Shape, removed: nat): Shape {
    Rehashed(RemovedTimes(Sorted(s), removed), false)
  }

  // ---- the capacity is determined

  lemma {:induction false} DigitsBound(n: nat)
    requires n > 0
    ensures Digits(n) > 0 && Pow2(Digits(n) - 1) <= n < Pow2(Digits(n))
  {
    if n > 1 {
      DigitsBound(n / 2);
      assert Pow2(Digits(n) - 1) == 2 * Pow2(Digits(n / 2) - 1);
    } else {
      assert n / 2 == 0 && Digits(0) == 0;
      assert Pow2(0) == 1 && Pow2(1) == 2;
    }
  }

  lemma ChosenIsNext(live: nat, current: nat, chosen: nat)
    requires Chosen(live, current, chosen)
    ensures chosen == NextCapacity(live, current)
  {
    var n := OrThree(live + 1);
    hide OrThree, Pow2;
    var log2: nat :| log2 > 0 && Pow2(log2 - 1) <= n < Pow2(log2)
      && chosen == if Pow2(log2) < current then current else Pow2(log2);
    DigitsAreUnique(n, log2);
  }

  lemma DigitsAreUnique(n: nat, log2: nat)
    requires log2 > 0 && Pow2(log2 - 1) <= n < Pow2(log2)
    ensures log2 == Digits(n)
  {
    hide Pow2, Digits;
    DigitsBound(n);
    if log2 < Digits(n) { Pow2Monotone(log2, Digits(n) - 1); }
    if Digits(n) < log2 { Pow2Monotone(Digits(n), log2 - 1); }
  }

  /** There is only one table for a vector. */
  lemma LightIs(live: nat, capacity: nat, cap: nat)
    requires IsTableCapacity(capacity, cap) && cap > 0
    ensures Light(live, capacity) <==> LoadFactor(live, cap) < MIN_LOAD_FACTOR
  {
    hide LoadFactor;
    forall c | IsTableCapacity(capacity, c) ensures c == cap {
    }
  }

  /** A rehash is due exactly if it is asked for or the vector is full: the load says nothing else. */
  lemma RehashIs(s: Shape, cap: nat, force: bool, t: Shape)
    requires IsTableCapacity(s.capacity, cap) && cap > 0 && s.live <= s.used <= s.capacity
    requires if force || s.Full() || LoadFactor(s.live, cap) > MAX_LOAD_FACTOR
      then t.live == t.used == s.live && Chosen(s.live, s.capacity, t.capacity) else t == s
    ensures t == Rehashed(s, force)
  {
    hide IsTableCapacity, Chosen, NextCapacity, LoadFactor;
    if LoadFactor(s.live, cap) > MAX_LOAD_FACTOR { LoadAboveMaxMeansFull(s.live, s.capacity, cap); }
    if t != s || force || s.Full() { ChosenIsNext(s.live, s.capacity, t.capacity); }
  }

  /** What a rehash makes room for: the least power of two above one more than the entries, and no less than before. */
  lemma NextInNumbers(live: nat, current: nat)
    ensures var next := NextCapacity(live, current);
      next >= current && (next == current || exists log2: nat ::
        next == Pow2(log2) && 4 <= next && live + 1 < next && (next == 4 || next <= 2 * (live + 1)))
    ensures NextCapacity(live, current) > live + 1
  {
    hide Digits;
    var n := OrThree(live + 1);
    var log2 := Digits(n);
    DigitsBound(n);
    assert Pow2(log2) == 2 * Pow2(log2 - 1);
    if log2 >= 2 { Pow2Monotone(2, log2); assert Pow2(2) == 4 by { assert Pow2(1) == 2; } }
    if log2 >= 3 { FourDivides(log2 - 1); }
  }

  lemma FourDivides(log2: nat)
    requires log2 >= 2
    ensures Pow2(log2) % 4 == 0
  {
    var q := Pow2(log2 - 2);
    assert Pow2(log2) == 4 * q by {
      assert Pow2(log2) == 2 * Pow2(log2 - 1) && Pow2(log2 - 1) == 2 * Pow2(log2 - 2);
    }
    FourTimes(q);
  }

  lemma FourTimes(q: nat)
    ensures (4 * q) % 4 == 0
  {
  }

  // ---- the first capacities

  lemma TableIs(capacity: nat, n: nat)
    requires 0 < n < |CAPACITY_TABLE| && CAPACITY_TABLE[n - 1] < Target(capacity) <= CAPACITY_TABLE[n]
    ensures IsTableCapacity(capacity, CAPACITY_TABLE[n])
  {
    hide CAPACITY_TABLE;
    forall c | c in CAPACITY_TABLE && Target(capacity) <= c ensures CAPACITY_TABLE[n] <= c {
      var j :| 0 <= j < |CAPACITY_TABLE| && CAPACITY_TABLE[j] == c;
      if j < n - 1 { TableIncreases(j, n - 1); }
      if n < j { TableIncreases(n, j); }
    }
  }

  /** The tables that go with the first vectors. */
  lemma FirstTables()
    ensures IsTableCapacity(8, 23) && IsTableCapacity(32, 53) && IsTableCapacity(64, 193)
  {
    hide IsTableCapacity;
    TableIs(8, 2);
    TableIs(32, 3);
    TableIs(64, 5);
  }

  /** A vector as new maps have it is lightly filled with five entries or fewer. */
  lemma LightAtFirst(live: nat)
    requires live <= 32
    ensures Light(live, NEW_SHAPE.capacity) <==> live <= 5
  {
    hide IsTableCapacity, Light;
    FirstTables();
    LightIs(live, 32, 53);
    LoadAtFirst(live);
  }

  lemma LoadAtFirst(live: nat)
    requires live <= 32
    ensures LoadFactor(live, 53) < MIN_LOAD_FACTOR <==> live <= 5
  {
    assert live * 100 % UINT32 == live * 100;
  }
}

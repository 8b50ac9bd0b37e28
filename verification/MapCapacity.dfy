/** Capacity and load-factor arithmetic of src/handlebars_map.c. */
module MapCapacity {

  const MIN_LOAD_FACTOR: nat := 10
  const MAX_LOAD_FACTOR: nat := 60
  const CAPACITY_TABLE: seq<nat> := [
    5, 11, 23, 53, 97, 193, 389, 769, 1543, 3079, 6151, 12289, 24593, 49157, 98317, 196613, 393241, 786433,
    1572869, 3145739, 6291469, 12582917, 25165843, 50331653, 100663319, 201326611, 402653189, 805306457, 1610612741
  ]

  const UINT32: nat := 0x1_0000_0000

  /** The table size the load-factor limit asks for, before rounding up to a listed prime. */
  function Target(elements: nat): nat {
    elements * 100 / MAX_LOAD_FACTOR
  }

  /** Beyond this the list of primes has no entry and the source gives up. */
  predicate HasTable(elements: nat) {
    Target(elements) <= 1610612741
  }

  /** The least listed prime that is large enough. */
  ghost predicate IsTableCapacity(elements: nat, cap: nat) {
    && cap in CAPACITY_TABLE
    && Target(elements) <= cap
    && forall c :: c in CAPACITY_TABLE && Target(elements) <= c ==> cap <= c
  }

  lemma TableIncreases(a: nat, b: nat)
    requires a < b < |CAPACITY_TABLE|
    ensures CAPACITY_TABLE[a] < CAPACITY_TABLE[b]
    decreases b - a
  {
    if a + 1 < b {
      TableIncreases(a, b - 1);
    }
  }

  /** The bound counts bytes, not elements, as the source's does; a fitting prime stops the loop before that matters. */
  method ChooseTableCapacity(elements: nat) returns (cap: nat)
    requires HasTable(elements)
    ensures IsTableCapacity(elements, cap)
  {
    var target := elements * 100 / MAX_LOAD_FACTOR;
    var i := 0;
    while i < 4 * |CAPACITY_TABLE| - 1
      invariant i < |CAPACITY_TABLE|
      invariant forall j :: 0 <= j < i ==> CAPACITY_TABLE[j] < target
      decreases |CAPACITY_TABLE| - i
    {
      if CAPACITY_TABLE[i] >= target {
        forall c | c in CAPACITY_TABLE && target <= c ensures CAPACITY_TABLE[i] <= c {
          var j :| 0 <= j < |CAPACITY_TABLE| && CAPACITY_TABLE[j] == c;
          if i < j { TableIncreases(i, j); }
        }
        return CAPACITY_TABLE[i];
      }
      assert CAPACITY_TABLE[28] == 1610612741;
      i := i + 1;
    }
    assert false;
  }

  /** The table always has more cells than the vector has entries. */
  lemma TableLargerThanVector(elements: nat, cap: nat)
    requires IsTableCapacity(elements, cap)
    ensures elements < cap && 5 <= cap < UINT32
  {
    forall c | c in CAPACITY_TABLE ensures 5 <= c < UINT32 {
    }
  }

  /** handlebars_map_load_factor: the product wraps at 32 bits. */
  function LoadFactor(i: nat, cap: nat): nat
    requires cap > 0
  {
    i * 100 % UINT32 / cap
  }

  /** The load-factor trigger of a rehash can only fire on a full vector, wrap-around included. */
  lemma LoadAboveMaxMeansFull(i: nat, elements: nat, cap: nat)
    requires IsTableCapacity(elements, cap) && cap > 0
    requires i <= elements
    requires LoadFactor(i, cap) > MAX_LOAD_FACTOR
    ensures i == elements
  {
    var wrapped := i * 100 % UINT32;
    assert wrapped <= i * 100;
    AboveSixty(wrapped, cap);
    TargetClose(elements);
  }

  lemma AboveSixty(n: nat, cap: nat)
    requires cap > 0 && n / cap > 60
    ensures n >= 61 * cap
  {
    var q := n / cap;
    assert n == q * cap + n % cap;
    assert q * cap == 61 * cap + (q - 61) * cap;
    assert (q - 61) * cap >= 0;
  }

  lemma TargetClose(elements: nat)
    ensures 60 * Target(elements) > elements * 100 - 60
  {
  }

  // ---- vector capacity

  function Pow2(n: nat): (r: nat)
    ensures r > 0
  {
    if n == 0 then 1 else 2 * Pow2(n - 1)
  }

  lemma {:induction false} Pow2Monotone(a: nat, b: nat)
    requires a <= b
    ensures Pow2(a) <= Pow2(b)
    decreases b - a
  {
    if a < b {
      Pow2Monotone(a, b - 1);
    }
  }

  /** n with its two lowest bits set. */
  function OrThree(n: nat): nat {
    n - n % 4 + 3
  }

  /** The number of binary digits of capacity | 3. */
  method ChooseVecCapacityLog2(capacity: nat) returns (log2: nat)
    ensures log2 > 0 && Pow2(log2 - 1) <= OrThree(capacity) < Pow2(log2)
  {
    var i := OrThree(capacity);
    ghost var n := i;
    log2 := 0;
    while i > 0
      invariant Window(n, i, log2)
      invariant i == 0 ==> log2 > 0 && Pow2(log2 - 1) <= n
    {
      ShiftStep(n, i, log2);
      i := i / 2;
      log2 := log2 + 1;
    }
  }

  /** i is what is left of n after log2 shifts. */
  ghost predicate Window(n: nat, i: nat, log2: nat) {
    i * Pow2(log2) <= n < (i + 1) * Pow2(log2)
  }

  lemma ShiftStep(n: nat, i: nat, log2: nat)
    requires i > 0 && Window(n, i, log2)
    ensures Window(n, i / 2, log2 + 1) && Pow2(log2) <= n
  {
    ShiftArithmetic(i, Pow2(log2), n);
  }

  lemma ShiftArithmetic(i: nat, p: nat, n: nat)
    requires i > 0 && i * p <= n < (i + 1) * p
    ensures i / 2 * (2 * p) <= n < (i / 2 + 1) * (2 * p)
    ensures p <= n
  {
    var h := i / 2;
    assert i == 2 * h || i == 2 * h + 1;
    assert h * (2 * p) == (2 * h) * p;
    assert (h + 1) * (2 * p) == (2 * h + 2) * p;
    assert (2 * h) * p <= i * p by { if i == 2 * h + 1 { assert i * p == (2 * h) * p + p; } }
    assert (i + 1) * p <= (2 * h + 2) * p by { if i == 2 * h { assert (2 * h + 2) * p == (i + 1) * p + p; } }
    assert i * p == (i - 1) * p + p;
  }

  /** Above this count a rehash would need a vector the list of primes cannot serve. */
  const REHASH_LIMIT: nat := 0x2000_0000

  /** The capacity a rehash picks for i + 1 elements leaves room for two more, and has a table. */
  lemma RehashRoom(i: nat, log2: nat)
    requires log2 > 0 && Pow2(log2 - 1) <= OrThree(i + 1) < Pow2(log2)
    ensures i + 2 <= Pow2(log2)
    ensures i + 1 < REHASH_LIMIT ==> Pow2(log2) <= REHASH_LIMIT && HasTable(Pow2(log2))
  {
    if i + 1 < REHASH_LIMIT {
      assert Pow2(29) == REHASH_LIMIT by { Pow2Values(); }
      if log2 > 29 {
        Pow2Monotone(29, log2 - 1);
      }
      Pow2Monotone(log2, 29);
    }
  }

  /**
   The vector capacity a rehash of i entries ends up with: the next power of two for i + 1, never less than
   before.
   */
  ghost predicate Chosen(i: nat, current: nat, chosen: nat) {
    exists log2: nat :: log2 > 0 && Pow2(log2 - 1) <= OrThree(i + 1) < Pow2(log2)
      && chosen == if Pow2(log2) < current then current else Pow2(log2)
  }

  lemma Pow2Values()
    ensures Pow2(29) == 0x2000_0000
  {
    assert Pow2(8) == 0x100;
    assert Pow2(16) == 0x1_0000;
    assert Pow2(24) == 0x100_0000;
  }
}

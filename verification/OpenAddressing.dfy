/**
 The two arrays behind a handlebars_map as plain sequences: the used prefix of the
 entry vector and the pointer table. Everything the class in HashMap.dfy keeps true
 is stated and proved here, one slot or one entry at a time.
 */
module OpenAddressing {
  import opened HbsString
  import opened Options
  import opened AssocList
  import SortR

  /** A vector entry; a removed one is overwritten with zeroes, so its key is gone. */
  datatype Entry<+V> = Dead | Live(key: HString, value: V, offset: nat)

  /** A table cell: NULL, the shared tombstone, or a pointer to a vector entry. */
  datatype Slot = Null | Tombstone | Ref(index: nat)

  /** The pairs a walk over the vector meets, dead entries skipped. */
  function Pairs<V>(vec: seq<Entry<V>>): seq<Pair<V>> {
    if vec == [] then []
    else (if vec[0].Live? then [Pair(vec[0].key, vec[0].value)] else []) + Pairs(vec[1..])
  }

  ghost function NonNull(table: seq<Slot>): set<nat> {
    set p: nat | p < |table| && table[p] != Null
  }

  // ---- probe arithmetic

  /** The d-th position of the linear probe that begins at start. */
  function Probe(start: nat, d: nat, cap: nat): (p: nat)
    requires start < cap && d < cap
    ensures p < cap && p == (start + d) % cap
  {
    if start + d < cap then
      start + d
    else
      WrapOnce(start + d, cap);
      start + d - cap
  }

  lemma WrapOnce(n: nat, cap: nat)
    requires cap <= n < 2 * cap
    ensures n % cap == n - cap
  {
    assert n == cap * 1 + (n - cap);
  }

  /** How many steps the probe from start needs to reach p. */
  function Steps(start: nat, p: nat, cap: nat): (d: nat)
    requires start < cap && p < cap
    ensures d < cap && Probe(start, d, cap) == p
  {
    if p >= start then p - start else p + cap - start
  }

  // ---- the invariant

  ghost predicate Reachable<V>(vec: seq<Entry<V>>, table: seq<Slot>, j: nat)
    requires j < |vec| && vec[j].Live? && vec[j].offset < |table|
  {
    var start := vec[j].key.hash % |table|;
    forall d :: 0 <= d < Steps(start, vec[j].offset, |table|) ==> table[Probe(start, d, |table|)] != Null
  }

  ghost predicate Linked<V>(vec: seq<Entry<V>>, table: seq<Slot>) {
    && (forall j :: 0 <= j < |vec| && vec[j].Live? ==> vec[j].offset < |table| && table[vec[j].offset] == Ref(j))
    && (forall p :: 0 <= p < |table| && table[p].Ref? ==>
          table[p].index < |vec| && vec[table[p].index].Live? && vec[table[p].index].offset == p)
  }

  ghost predicate KeysDistinct<V>(vec: seq<Entry<V>>) {
    forall a, b :: 0 <= a < b < |vec| && vec[a].Live? && vec[b].Live? ==> !Eq(vec[a].key, vec[b].key)
  }

  /**
   Live entries and table cells point at each other, every live key is reachable on its
   probe chain without crossing a NULL, keys are distinct, and as many cells are in use
   (tombstones included) as the vector has used entries (dead ones included).
   */
  ghost predicate Inv<V>(vec: seq<Entry<V>>, table: seq<Slot>) {
    && |vec| < |table|
    && Linked(vec, table)
    && |NonNull(table)| == |vec|
    && KeysDistinct(vec)
    && (forall j :: 0 <= j < |vec| && vec[j].Live? ==> Reachable(vec, table, j))
  }

  // ---- Pairs

  lemma {:induction false} PairsConcat<V>(a: seq<Entry<V>>, b: seq<Entry<V>>)
    ensures Pairs(a + b) == Pairs(a) + Pairs(b)
  {
    if a == [] {
      assert a + b == b;
    } else {
      assert (a + b)[0] == a[0] && (a + b)[1..] == a[1..] + b;
      PairsConcat(a[1..], b);
      var first := if a[0].Live? then [Pair(a[0].key, a[0].value)] else [];
      assert Pairs(a) == first + Pairs(a[1..]) && Pairs(a + b) == first + Pairs(a[1..] + b);
      assert first + Pairs(a[1..]) + Pairs(b) == first + (Pairs(a[1..]) + Pairs(b));
    }
  }

  lemma PairsAppend<V>(vec: seq<Entry<V>>, e: Entry<V>)
    ensures Pairs(vec + [e]) == Pairs(vec) + (if e.Live? then [Pair(e.key, e.value)] else [])
  {
    PairsConcat(vec, [e]);
    assert [e][1..] == [];
  }

  lemma {:induction false} PairsMembers<V>(vec: seq<Entry<V>>, x: Pair<V>)
    ensures x in Pairs(vec) <==> exists j :: 0 <= j < |vec| && vec[j].Live? && Pair(vec[j].key, vec[j].value) == x
  {
    if vec != [] {
      PairsMembers(vec[1..], x);
      assert forall j :: 1 <= j < |vec| ==> vec[j] == vec[1..][j - 1];
      assert forall j :: 0 <= j < |vec[1..]| ==> vec[1..][j] == vec[j + 1];
    }
  }

  lemma {:induction false} PairsDistinct<V>(vec: seq<Entry<V>>)
    requires KeysDistinct(vec)
    ensures Distinct(Pairs(vec))
  {
    if vec != [] {
      var rest := vec[1..];
      PairsDistinct(rest);
      if vec[0].Live? {
        forall b | 0 <= b < |Pairs(rest)| ensures !Eq(vec[0].key, Pairs(rest)[b].key) {
          PairsMembers(rest, Pairs(rest)[b]);
        }
      }
    }
  }

  lemma {:induction false} PairsBound<V>(vec: seq<Entry<V>>)
    ensures |Pairs(vec)| <= |vec|
    ensures |Pairs(vec)| == |vec| <==> forall j :: 0 <= j < |vec| ==> vec[j].Live?
  {
    if vec != [] {
      PairsBound(vec[1..]);
      assert forall j :: 1 <= j < |vec| ==> vec[j] == vec[1..][j - 1];
      assert forall j :: 0 <= j < |vec[1..]| ==> vec[1..][j] == vec[j + 1];
    }
  }

  /** Looking a key up in the vector's pairs, by position. */
  lemma FindInPairs<V>(vec: seq<Entry<V>>, k: HString, j: nat)
    requires KeysDistinct(vec)
    requires j < |vec| && vec[j].Live? && Eq(vec[j].key, k)
    ensures Find(Pairs(vec), k) == Some(vec[j].value)
  {
    PairsDistinct(vec);
    PairsMembers(vec, Pair(vec[j].key, vec[j].value));
    var l :| 0 <= l < |Pairs(vec)| && Pairs(vec)[l] == Pair(vec[j].key, vec[j].value);
    FindAt(Pairs(vec), l, k);
  }

  lemma NotInPairs<V>(vec: seq<Entry<V>>, k: HString)
    requires forall j :: 0 <= j < |vec| && vec[j].Live? ==> !Eq(vec[j].key, k)
    ensures !Has(Pairs(vec), k)
  {
    FindNone(Pairs(vec), k);
    forall l | 0 <= l < |Pairs(vec)| ensures !Eq(Pairs(vec)[l].key, k) {
      PairsMembers(vec, Pairs(vec)[l]);
    }
  }

  /** Overwriting a value in the vector is Put on the pairs. */
  lemma {:induction false} PairsPut<V>(vec: seq<Entry<V>>, j: nat, k: HString, v: V)
    requires KeysDistinct(vec)
    requires j < |vec| && vec[j].Live? && Eq(vec[j].key, k)
    ensures Pairs(vec[j := vec[j].(value := v)]) == Put(Pairs(vec), k, v)
  {
    if j == 0 {
      assert vec[0 := vec[0].(value := v)][1..] == vec[1..];
      assert Pairs(vec)[1..] == Pairs(vec[1..]);
    } else {
      PairsPut(vec[1..], j - 1, k, v);
      assert vec[j := vec[j].(value := v)][1..] == vec[1..][j - 1 := vec[j].(value := v)];
      if vec[0].Live? {
        assert !Eq(vec[0].key, vec[j].key);
        assert Pairs(vec)[1..] == Pairs(vec[1..]);
      } else {
        assert Pairs(vec) == Pairs(vec[1..]);
      }
    }
  }

  /** Killing an entry is Del on the pairs. */
  lemma {:induction false} PairsDel<V>(vec: seq<Entry<V>>, j: nat, k: HString)
    requires KeysDistinct(vec)
    requires j < |vec| && vec[j].Live? && Eq(vec[j].key, k)
    ensures Pairs(vec[j := Dead]) == Del(Pairs(vec), k)
    ensures |Pairs(vec[j := Dead])| == |Pairs(vec)| - 1
  {
    if j == 0 {
      assert vec[0 := Dead][1..] == vec[1..];
      assert Pairs(vec)[1..] == Pairs(vec[1..]);
    } else {
      PairsDel(vec[1..], j - 1, k);
      assert vec[j := Dead][1..] == vec[1..][j - 1 := Dead];
      if vec[0].Live? {
        assert !Eq(vec[0].key, vec[j].key);
        assert Pairs(vec)[1..] == Pairs(vec[1..]);
      } else {
        assert Pairs(vec) == Pairs(vec[1..]);
      }
    }
  }

  // ---- cells in use

  lemma NonNullGrows(table: seq<Slot>, p: nat, s: Slot)
    requires p < |table| && table[p] == Null && s != Null
    ensures |NonNull(table[p := s])| == |NonNull(table)| + 1
  {
    assert NonNull(table[p := s]) == NonNull(table) + {p};
  }

  lemma NonNullStays(table: seq<Slot>, p: nat, s: Slot)
    requires p < |table| && table[p] != Null && s != Null
    ensures NonNull(table[p := s]) == NonNull(table)
  {
  }

  ghost function UpTo(n: nat): (s: set<nat>)
    ensures |s| == n && forall p :: p in s <==> 0 <= p < n
  {
    if n == 0 then {} else UpTo(n - 1) + {n - 1}
  }

  /** With fewer cells in use than the table has, some cell is NULL. */
  lemma SomeNull(table: seq<Slot>)
    requires |NonNull(table)| < |table|
    ensures exists p :: 0 <= p < |table| && table[p] == Null
  {
    assert NonNull(table) != UpTo(|table|);
    assert exists p :: p in UpTo(|table|) && p !in NonNull(table);
  }

  // ---- what a probe that stops tells about the whole vector

  /** A probe that reached a NULL without meeting the key proves the key absent. */
  lemma ProbeMiss<V>(vec: seq<Entry<V>>, table: seq<Slot>, k: HString, n: nat)
    requires Inv(vec, table) && n < |table|
    requires table[Probe(k.hash % |table|, n, |table|)] == Null
    requires forall d :: 0 <= d < n ==>
      var s := table[Probe(k.hash % |table|, d, |table|)];
      s.Ref? ==> !Eq(vec[s.index].key, k)
    ensures forall j :: 0 <= j < |vec| && vec[j].Live? ==> !Eq(vec[j].key, k)
  {
    forall j | 0 <= j < |vec| && vec[j].Live? ensures !Eq(vec[j].key, k) {
      var start := vec[j].key.hash % |table|;
      var d := Steps(start, vec[j].offset, |table|);
      assert Reachable(vec, table, j);
      assert table[Probe(start, d, |table|)] == Ref(j);
      assert n < d ==> table[Probe(start, n, |table|)] != Null;
    }
  }

  /** A probe over the whole table that met no NULL contradicts the invariant. */
  lemma ProbeMeetsNull<V>(vec: seq<Entry<V>>, table: seq<Slot>, start: nat)
    requires Inv(vec, table) && start < |table|
    ensures exists d :: 0 <= d < |table| && table[Probe(start, d, |table|)] == Null
  {
    SomeNull(table);
    var p :| 0 <= p < |table| && table[p] == Null;
    assert table[Probe(start, Steps(start, p, |table|), |table|)] == Null;
  }

  // ---- the three mutations

  lemma AddKeepsInv<V>(vec: seq<Entry<V>>, table: seq<Slot>, k: HString, v: V, n: nat)
    requires Inv(vec, table) && n < |table| && |vec| + 1 < |table|
    requires forall j :: 0 <= j < |vec| && vec[j].Live? ==> !Eq(vec[j].key, k)
    requires table[Probe(k.hash % |table|, n, |table|)] == Null
    requires forall d :: 0 <= d < n ==> table[Probe(k.hash % |table|, d, |table|)] != Null
    ensures var p := Probe(k.hash % |table|, n, |table|);
      Inv(vec + [Live(k, v, p)], table[p := Ref(|vec|)])
  {
    var start := k.hash % |table|;
    var p := Probe(start, n, |table|);
    var vec' := vec + [Live(k, v, p)];
    var table' := table[p := Ref(|vec|)];
    NonNullGrows(table, p, Ref(|vec|));
    assert Linked(vec', table');
    forall j | 0 <= j < |vec'| && vec'[j].Live? ensures Reachable(vec', table', j) {
      if j < |vec| {
        assert Reachable(vec, table, j);
      } else {
        assert Steps(start, p, |table|) == n by { ProbeInjective(start, Steps(start, p, |table|), n, |table|); }
      }
    }
  }

  lemma ProbeInjective(start: nat, a: nat, b: nat, cap: nat)
    requires start < cap && a < cap && b < cap
    requires Probe(start, a, cap) == Probe(start, b, cap)
    ensures a == b
  {
    assert Probe(start, a, cap) == if start + a < cap then start + a else start + a - cap;
    assert Probe(start, b, cap) == if start + b < cap then start + b else start + b - cap;
  }

  lemma UpdateKeepsInv<V>(vec: seq<Entry<V>>, table: seq<Slot>, j: nat, v: V)
    requires Inv(vec, table) && j < |vec| && vec[j].Live?
    ensures Inv(vec[j := vec[j].(value := v)], table)
  {
    var vec' := vec[j := vec[j].(value := v)];
    forall l | 0 <= l < |vec'| && vec'[l].Live? ensures Reachable(vec', table, l) {
      assert Reachable(vec, table, l);
    }
  }

  lemma RemoveKeepsInv<V>(vec: seq<Entry<V>>, table: seq<Slot>, j: nat)
    requires Inv(vec, table) && j < |vec| && vec[j].Live?
    ensures Inv(vec[j := Dead], table[vec[j].offset := Tombstone])
  {
    var p := vec[j].offset;
    var vec' := vec[j := Dead];
    var table' := table[p := Tombstone];
    NonNullStays(table, p, Tombstone);
    forall l | 0 <= l < |vec'| && vec'[l].Live? ensures Reachable(vec', table', l) {
      assert Reachable(vec, table, l);
    }
  }

  // ---- sorting the vector and repointing the table

  /** The table after every entry of a dense vector has been written back to its own cell. */
  ghost predicate Repointed<V>(vec: seq<Entry<V>>, before: seq<Slot>, after: seq<Slot>) {
    && |after| == |before|
    && (forall j :: 0 <= j < |vec| ==> vec[j].Live? && vec[j].offset < |after| && after[vec[j].offset] == Ref(j))
    && (forall p :: 0 <= p < |after| ==> (after[p] == Null <==> before[p] == Null))
  }

  lemma PermutedEntry<V>(a: seq<Entry<V>>, b: seq<Entry<V>>, j: nat) returns (l: nat)
    requires multiset(a) == multiset(b) && j < |a|
    ensures l < |b| && b[l] == a[j]
  {
    assert a[j] in multiset(a);
    assert a[j] in b;
    l :| 0 <= l < |b| && b[l] == a[j];
  }

  lemma DenseTableFull<V>(vec: seq<Entry<V>>, table: seq<Slot>)
    requires Inv(vec, table)
    requires forall j :: 0 <= j < |vec| ==> vec[j].Live?
    ensures forall p :: 0 <= p < |table| ==> table[p] != Tombstone
  {
    var used := set j: nat | j < |vec| :: vec[j].offset;
    OffsetsCount(vec, table, |vec|);
    assert used <= NonNull(table);
    SubsetOfSameSize(used, NonNull(table));
    forall p: nat | p < |table| ensures table[p] != Tombstone {
      assert p in NonNull(table) ==> p in used;
    }
  }

  lemma {:induction false} OffsetsCount<V>(vec: seq<Entry<V>>, table: seq<Slot>, n: nat)
    requires Linked(vec, table) && n <= |vec|
    requires forall j :: 0 <= j < |vec| ==> vec[j].Live?
    ensures |set j: nat | j < n :: vec[j].offset| == n
  {
    var s := set j: nat | j < n :: vec[j].offset;
    if n > 0 {
      OffsetsCount(vec, table, n - 1);
      var t := set j: nat | j < n - 1 :: vec[j].offset;
      assert s == t + {vec[n - 1].offset};
      assert vec[n - 1].offset !in t;
    } else {
      assert s == {};
    }
  }

  lemma SubsetOfSameSize<T>(a: set<T>, b: set<T>)
    requires a <= b && |a| == |b|
    ensures a == b
  {
    assert |b - a| == |b| - |a|;
  }

  /** Any permutation of a dense vector, once repointed, satisfies the invariant again. */
  lemma SortKeepsInv<V>(vec: seq<Entry<V>>, table: seq<Slot>, vec': seq<Entry<V>>, table': seq<Slot>)
    requires Inv(vec, table)
    requires forall j :: 0 <= j < |vec| ==> vec[j].Live?
    requires multiset(vec) == multiset(vec')
    requires Repointed(vec', table, table')
    ensures Inv(vec', table')
  {
    assert |vec| == |vec'| by {
      assert |multiset(vec)| == |multiset(vec')|;
    }
    assert NonNull(table') == NonNull(table);
    DenseTableFull(vec, table);
    forall p | 0 <= p < |table'| && table'[p].Ref?
      ensures table'[p].index < |vec'| && vec'[table'[p].index].Live? && vec'[table'[p].index].offset == p
    {
      var j := table[p].index;
      var l := PermutedEntry(vec, vec', j);
    }
    forall l | 0 <= l < |vec'| ensures Reachable(vec', table', l) {
      var j := PermutedEntry(vec', vec, l);
      assert Reachable(vec, table, j);
    }
    forall a, b | 0 <= a < b < |vec'| ensures !Eq(vec'[a].key, vec'[b].key) {
      var x := PermutedEntry(vec', vec, a);
      var y := PermutedEntry(vec', vec, b);
      assert table'[vec'[a].offset] == Ref(a) && table'[vec'[b].offset] == Ref(b);
      assert x != y;
    }
  }

  /** Permuting a dense vector permutes its pairs. */
  lemma {:induction false} PairsOfDense<V>(vec: seq<Entry<V>>)
    requires forall j :: 0 <= j < |vec| ==> vec[j].Live?
    ensures Pairs(vec) == seq(|vec|, j requires 0 <= j < |vec| => Pair(vec[j].key, vec[j].value))
  {
    if vec != [] {
      PairsOfDense(vec[1..]);
    }
  }

  lemma DensePairs<V>(vec: seq<Entry<V>>)
    requires |Pairs(vec)| == |vec|
    ensures forall j :: 0 <= j < |vec| ==> vec[j].Live? && Pairs(vec)[j] == Pair(vec[j].key, vec[j].value)
  {
    PairsBound(vec);
    PairsOfDense(vec);
  }

  lemma {:induction false} PermutedPairs<V>(a: seq<Entry<V>>, b: seq<Entry<V>>)
    requires multiset(a) == multiset(b)
    ensures multiset(Pairs(a)) == multiset(Pairs(b))
  {
    if a == [] {
      assert |multiset(a)| == |multiset(b)|;
    } else {
      var l := SortR.TakeOne(a, b);
      var rest := b[..l] + b[l + 1..];
      assert b == b[..l] + [b[l]] + b[l + 1..];
      PermutedPairs(a[1..], rest);
      PairsConcat(b[..l], b[l + 1..]);
      PairsConcat(b[..l] + [b[l]], b[l + 1..]);
      PairsAppend(b[..l], b[l]);
    }
  }
}

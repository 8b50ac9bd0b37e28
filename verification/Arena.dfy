/** The data segment of src/handlebars_cache_mmap.c: objects laid one behind the other, cell by cell. */
module Arena {
  import opened HbsString

  /** A compiled module as far as the cache is concerned. */
  datatype Mod = Mod(id: nat, size: nat, version: int, ts: int)

  datatype Obj = KeyObj(key: HString) | ModuleObj(mod: Mod) | EntryObj(keyAt: nat, dataAt: nat)

  /** A byte of the segment: byte k of an object, or anything else. */
  datatype Cell = Blank | Part(obj: Obj, k: nat)

  const PADDING: nat := 1
  const WORD: nat := 8
  /** sizeof(struct handlebars_string) and sizeof(struct table_entry) */
  const STRING_SIZE: nat := 24
  const ENTRY_SIZE: nat := 16

  function SizeOf(o: Obj): nat {
    match o
    case KeyObj(k) => STRING_SIZE + |k.val| + 1
    case ModuleObj(m) => m.size
    case EntryObj(_, _) => ENTRY_SIZE
  }

  /** handlebars_align_size, to whole words. */
  function Align(size: nat): (r: nat)
    ensures r % WORD == 0 && size <= r < size + WORD
  {
    var rem := size % WORD;
    if rem == 0 then size else size + WORD - rem
  }

  function Space(o: Obj): nat {
    Align(SizeOf(o) + PADDING)
  }

  /** Where the next object goes after the given ones. */
  function End(objs: seq<Obj>): nat {
    if objs == [] then 0 else End(objs[..|objs| - 1]) + Space(objs[|objs| - 1])
  }

  /** Where object n of objs lies. */
  function Place(objs: seq<Obj>, n: nat): nat
    requires n <= |objs|
  {
    End(objs[..n])
  }

  /** All allocations are aligned, disjoint and within what is in use. */
  lemma {:induction false} PlacesApart(objs: seq<Obj>, m: nat, n: nat)
    requires m < n <= |objs|
    ensures Place(objs, m) % WORD == 0 && Place(objs, m) + SizeOf(objs[m]) < Place(objs, n) <= End(objs)
    decreases |objs|
  {
    EndAligned(objs[..m]);
    assert objs[..m + 1][..m] == objs[..m];
    PlacesOrdered(objs, m + 1, n);
    PlacesOrdered(objs, n, |objs|);
    assert objs[..|objs|] == objs;
  }

  lemma {:induction false} EndAligned(objs: seq<Obj>)
    ensures End(objs) % WORD == 0
  {
    if objs != [] {
      EndAligned(objs[..|objs| - 1]);
      AddAligned(End(objs[..|objs| - 1]), Space(objs[|objs| - 1]));
    }
  }

  lemma AddAligned(a: nat, b: nat)
    requires a % WORD == 0 && b % WORD == 0
    ensures (a + b) % WORD == 0
  {
  }

  lemma {:induction false} PlacesOrdered(objs: seq<Obj>, m: nat, n: nat)
    requires m <= n <= |objs|
    ensures Place(objs, m) <= Place(objs, n)
    decreases n
  {
    if m < n {
      PlacesOrdered(objs, m, n - 1);
      assert objs[..n][..n - 1] == objs[..n - 1];
    }
  }

  /** The bytes of o lie at the address. */
  ghost predicate Holds(cells: seq<Cell>, at: nat, o: Obj) {
    at + SizeOf(o) <= |cells| && forall k :: at <= k < at + SizeOf(o) ==> cells[k] == Part(o, k - at)
  }

  /** Every object is where it was put. */
  ghost predicate Laid(cells: seq<Cell>, objs: seq<Obj>) {
    forall n :: 0 <= n < |objs| ==> Holds(cells, Place(objs, n), objs[n])
  }

  ghost predicate Points(objs: seq<Obj>, at: nat, o: Obj) {
    exists n :: 0 <= n < |objs| && Place(objs, n) == at && objs[n] == o
  }

  lemma PlaceAfterAppend(objs: seq<Obj>, o: Obj, n: nat)
    requires n <= |objs|
    ensures Place(objs + [o], n) == Place(objs, n)
    ensures End(objs + [o]) == End(objs) + Space(o)
  {
    assert (objs + [o])[..n] == objs[..n];
    assert (objs + [o])[..|objs|] == objs;
  }

  lemma PointsAfterAppend(objs: seq<Obj>, o: Obj, at: nat, p: Obj)
    requires Points(objs, at, p)
    ensures Points(objs + [o], at, p)
  {
    var n :| 0 <= n < |objs| && Place(objs, n) == at && objs[n] == p;
    PlaceAfterAppend(objs, o, n);
    assert (objs + [o])[n] == p;
  }

  lemma PointsToLast(objs: seq<Obj>, o: Obj)
    ensures Points(objs + [o], End(objs), o)
  {
    assert (objs + [o])[..|objs|] == objs;
    assert (objs + [o])[|objs|] == o;
  }

  lemma HoldsStill(cells: seq<Cell>, cells': seq<Cell>, end: nat, at: nat, o: Obj)
    requires |cells'| == |cells| && end <= |cells| && cells'[..end] == cells[..end]
    requires Holds(cells, at, o) && at + SizeOf(o) <= end
    ensures Holds(cells', at, o)
  {
    forall k | at <= k < at + SizeOf(o) ensures cells'[k] == Part(o, k - at) {
      assert cells'[..end][k] == cells[..end][k];
    }
  }

  /** Writing an object behind the others leaves them where they are. */
  lemma LaidAfterAppend(cells: seq<Cell>, cells': seq<Cell>, objs: seq<Obj>, o: Obj)
    requires Laid(cells, objs) && |cells'| == |cells| && End(objs) <= |cells|
    requires cells'[..End(objs)] == cells[..End(objs)] && Holds(cells', End(objs), o)
    ensures Laid(cells', objs + [o])
  {
    hide Holds;
    var all := objs + [o];
    forall n | 0 <= n < |all| ensures Holds(cells', Place(all, n), all[n]) {
      if n < |objs| {
        PlaceAfterAppend(objs, o, n);
        PlacesApart(objs, n, |objs|);
        assert objs[..|objs|] == objs;
        HoldsStill(cells, cells', End(objs), Place(objs, n), objs[n]);
      } else {
        assert all[..n] == objs;
      }
    }
  }

  lemma LaidHolds(cells: seq<Cell>, objs: seq<Obj>, at: nat, o: Obj)
    requires Laid(cells, objs) && Points(objs, at, o)
    ensures Holds(cells, at, o)
  {
  }
}

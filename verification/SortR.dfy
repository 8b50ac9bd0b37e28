/**
 Stand-in for sort_r, which src/handlebars_map.c takes from outside: callers may rely
 only on the contract of Sort, a sorted permutation of the first n elements.
 */
module SortR {

  /** cmp behaves like a comparison function on the elements of s. */
  ghost predicate Orders<T>(cmp: (T, T) -> int, s: seq<T>) {
    && (forall x, y {:trigger cmp(x, y)} :: x in s && y in s ==> cmp(x, y) <= 0 || cmp(y, x) <= 0)
    && (forall x, y, z {:trigger cmp(x, y), cmp(y, z)} ::
      x in s && y in s && z in s && cmp(x, y) <= 0 && cmp(y, z) <= 0 ==> cmp(x, z) <= 0)
  }

  ghost predicate Sorted<T>(cmp: (T, T) -> int, s: seq<T>) {
    forall a, b :: 0 <= a < b < |s| ==> cmp(s[a], s[b]) <= 0
  }

  ghost predicate Below<T>(cmp: (T, T) -> int, x: T, s: seq<T>) {
    forall b :: 0 <= b < |s| ==> cmp(x, s[b]) <= 0
  }

  function Insert<T>(cmp: (T, T) -> int, x: T, s: seq<T>): seq<T> {
    if s == [] || cmp(x, s[0]) <= 0 then [x] + s else [s[0]] + Insert(cmp, x, s[1..])
  }

  function InsertionSort<T>(cmp: (T, T) -> int, s: seq<T>): seq<T> {
    if s == [] then [] else Insert(cmp, s[0], InsertionSort(cmp, s[1..]))
  }

  lemma {:induction false} InsertKeepsElements<T>(cmp: (T, T) -> int, x: T, s: seq<T>)
    ensures multiset(Insert(cmp, x, s)) == multiset([x] + s)
  {
    if s != [] && cmp(x, s[0]) > 0 {
      InsertKeepsElements(cmp, x, s[1..]);
      assert [x] + s == [x] + ([s[0]] + s[1..]);
    }
  }

  lemma OrdersTail<T>(cmp: (T, T) -> int, x: T, s: seq<T>)
    requires s != [] && Orders(cmp, [x] + s)
    ensures Orders(cmp, [x] + s[1..])
  {
    var r, t := [x] + s, [x] + s[1..];
    forall y | y in t ensures y in r {
      var l :| 0 <= l < |t| && t[l] == y;
      assert y == if l == 0 then r[0] else r[l + 1];
    }
  }

  lemma {:induction false} InsertSorts<T>(cmp: (T, T) -> int, x: T, s: seq<T>)
    requires Orders(cmp, [x] + s) && Sorted(cmp, s)
    ensures Sorted(cmp, Insert(cmp, x, s))
  {
    if s == [] {
    } else if cmp(x, s[0]) <= 0 {
      HeadBelow(cmp, x, s);
      ConsSorted(cmp, x, s);
    } else {
      var rest := s[1..];
      assert Sorted(cmp, rest);
      OrdersTail(cmp, x, s);
      InsertSorts(cmp, x, rest);
      InsertedAbove(cmp, x, s);
      ConsSorted(cmp, s[0], Insert(cmp, x, rest));
    }
  }

  lemma ConsSorted<T>(cmp: (T, T) -> int, x: T, s: seq<T>)
    requires Sorted(cmp, s) && Below(cmp, x, s)
    ensures Sorted(cmp, [x] + s)
  {
  }

  lemma HeadBelow<T>(cmp: (T, T) -> int, x: T, s: seq<T>)
    requires Orders(cmp, [x] + s) && Sorted(cmp, s)
    requires s != [] && cmp(x, s[0]) <= 0
    ensures Below(cmp, x, s)
  {
    forall b | 1 <= b < |s| ensures cmp(x, s[b]) <= 0 {
      var r := [x] + s;
      assert r[0] == x && r[1] == s[0] && r[b + 1] == s[b];
      assert cmp(s[0], s[b]) <= 0;
    }
  }

  lemma InsertedAbove<T>(cmp: (T, T) -> int, x: T, s: seq<T>)
    requires Orders(cmp, [x] + s) && Sorted(cmp, s)
    requires s != [] && cmp(x, s[0]) > 0
    ensures Below(cmp, s[0], Insert(cmp, x, s[1..]))
  {
    var rest, r := s[1..], Insert(cmp, x, s[1..]);
    assert ([x] + s)[0] == x && ([x] + s)[1] == s[0];
    assert cmp(s[0], x) <= 0;
    InsertKeepsElements(cmp, x, rest);
    forall b | 0 <= b < |r| ensures cmp(s[0], r[b]) <= 0 {
      assert r[b] in multiset(r);
      assert r[b] == x || r[b] in rest;
      if r[b] in rest {
        var l :| 0 <= l < |rest| && rest[l] == r[b];
        assert s[l + 1] == r[b];
      }
    }
  }

  lemma {:induction false} InsertionSortSorts<T>(cmp: (T, T) -> int, s: seq<T>)
    requires Orders(cmp, s)
    ensures Sorted(cmp, InsertionSort(cmp, s))
    ensures multiset(InsertionSort(cmp, s)) == multiset(s)
  {
    if s != [] {
      var rest, r := s[1..], InsertionSort(cmp, s[1..]);
      assert s == [s[0]] + rest;
      InsertionSortSorts(cmp, rest);
      forall y | y in [s[0]] + r ensures y in s {
        if y in r {
          assert y in multiset(r);
        }
      }
      InsertSorts(cmp, s[0], r);
      InsertKeepsElements(cmp, s[0], r);
    }
  }

  // ---- permutations

  /** The first element of a, found in a permutation b of it, can be taken out of both. */
  lemma TakeOne<T>(a: seq<T>, b: seq<T>) returns (l: nat)
    requires a != [] && multiset(a) == multiset(b)
    ensures l < |b| && b[l] == a[0]
    ensures multiset(a[1..]) == multiset(b[..l] + b[l + 1..])
  {
    assert a[0] in multiset(a);
    l :| 0 <= l < |b| && b[l] == a[0];
    assert a == [a[0]] + a[1..];
    assert multiset(a) == multiset{a[0]} + multiset(a[1..]);
    assert b == b[..l] + [b[l]] + b[l + 1..];
    assert multiset(b) == multiset(b[..l]) + multiset{b[l]} + multiset(b[l + 1..]);
    assert multiset(b[..l] + b[l + 1..]) == multiset(b) - multiset{b[l]};
    assert multiset(a[1..]) == multiset(a) - multiset{a[0]};
  }

  lemma SameMembers<T>(a: seq<T>, b: seq<T>)
    requires multiset(a) == multiset(b)
    ensures |a| == |b| && forall x :: x in a <==> x in b
  {
    assert |multiset(a)| == |multiset(b)|;
    forall x ensures x in a <==> x in b {
      assert x in a <==> x in multiset(a);
      assert x in b <==> x in multiset(b);
    }
  }

  method Sort<T>(a: array<T>, n: nat, cmp: (T, T) -> int)
    requires n <= a.Length && Orders(cmp, a[..n])
    modifies a
    ensures Sorted(cmp, a[..n])
    ensures multiset(a[..n]) == old(multiset(a[..n]))
    ensures a[n..] == old(a[n..])
  {
    hide Sorted, Orders;
    var s := InsertionSort(cmp, a[..n]);
    InsertionSortSorts(cmp, a[..n]);
    assert |s| == n by { assert |multiset(s)| == |multiset(a[..n])|; }
    forall j | 0 <= j < n {
      a[j] := s[j];
    }
    assert a[..n] == s;
  }

  /** Different elements never compare as equal. */
  ghost predicate NoTies<T>(cmp: (T, T) -> int, s: seq<T>) {
    forall x, y {:trigger cmp(x, y)} :: x in s && y in s && cmp(x, y) <= 0 && cmp(y, x) <= 0 ==> x == y
  }

  /** Without ties there is one sorted order. */
  lemma {:induction false} SortedOnce<T>(cmp: (T, T) -> int, s: seq<T>, t: seq<T>)
    requires multiset(s) == multiset(t) && Sorted(cmp, t)
    ensures Sorted(cmp, s) && NoTies(cmp, s) ==> s == t
    ensures s == t ==> Sorted(cmp, s)
  {
    if Sorted(cmp, s) && NoTies(cmp, s) { SortedUnique(cmp, s, t); }
  }

  lemma {:induction false} SortedUnique<T>(cmp: (T, T) -> int, s: seq<T>, t: seq<T>)
    requires multiset(s) == multiset(t) && Sorted(cmp, s) && Sorted(cmp, t) && NoTies(cmp, s)
    ensures s == t
  {
    hide Sorted, NoTies;
    if s == [] {
      assert |multiset(t)| == 0;
    } else {
      assert |multiset(t)| == |s|;
      SameFirst(cmp, s, t);
      TailSorted(cmp, s);
      TailSorted(cmp, t);
      assert s == [s[0]] + s[1..] && t == [t[0]] + t[1..];
      assert multiset(s[1..]) == multiset(s) - multiset{s[0]};
      assert multiset(t[1..]) == multiset(t) - multiset{t[0]};
      SortedUnique(cmp, s[1..], t[1..]);
    }
  }

  lemma TailSorted<T>(cmp: (T, T) -> int, s: seq<T>)
    requires s != [] && Sorted(cmp, s)
    ensures Sorted(cmp, s[1..])
    ensures NoTies(cmp, s) ==> NoTies(cmp, s[1..])
  {
    assert forall x :: x in s[1..] ==> x in s;
  }

  /** Of two sorted orders of the same elements, each begins with the least. */
  lemma SameFirst<T>(cmp: (T, T) -> int, s: seq<T>, t: seq<T>)
    requires s != [] && t != [] && multiset(s) == multiset(t)
    requires Sorted(cmp, s) && Sorted(cmp, t) && NoTies(cmp, s)
    ensures s[0] == t[0]
  {
    var x, y := s[0], t[0];
    assert x in multiset(t) && y in multiset(s);
    var a :| 0 <= a < |t| && t[a] == x;
    var b :| 0 <= b < |s| && s[b] == y;
    if a > 0 && b > 0 {
      assert cmp(s[0], s[b]) <= 0 && cmp(t[0], t[a]) <= 0;
      assert cmp(x, y) <= 0 && cmp(y, x) <= 0;
    }
  }
}

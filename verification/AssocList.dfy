/**
 The simple form the hash map is proved against: a list of key/value pairs in
 insertion order, searched from the front.
 */
module AssocList {
  import opened HbsString
  import opened Options

  datatype Pair<+V> = Pair(key: HString, value: V)

  /** No two pairs have equal keys. */
  ghost predicate Distinct<V>(s: seq<Pair<V>>) {
    forall a, b :: 0 <= a < b < |s| ==> !Eq(s[a].key, s[b].key)
  }

  function Find<V>(s: seq<Pair<V>>, k: HString): Option<V> {
    if s == [] then None
    else if Eq(s[0].key, k) then Some(s[0].value)
    else Find(s[1..], k)
  }

  predicate Has<V>(s: seq<Pair<V>>, k: HString) {
    Find(s, k).Some?
  }

  /** Overwrites the value of an equal key where it stands; a new key goes to the end. */
  function Put<V>(s: seq<Pair<V>>, k: HString, v: V): seq<Pair<V>> {
    if s == [] then [Pair(k, v)]
    else if Eq(s[0].key, k) then [Pair(s[0].key, v)] + s[1..]
    else [s[0]] + Put(s[1..], k, v)
  }

  /** Drops the pair with an equal key, if there is one. */
  function Del<V>(s: seq<Pair<V>>, k: HString): seq<Pair<V>> {
    if s == [] then []
    else if Eq(s[0].key, k) then s[1..]
    else [s[0]] + Del(s[1..], k)
  }

  // ---- Find in terms of positions

  lemma {:induction false} FindAt<V>(s: seq<Pair<V>>, j: nat, k: HString)
    requires j < |s| && Eq(s[j].key, k) && Distinct(s)
    ensures Find(s, k) == Some(s[j].value)
  {
    if j > 0 {
      FindAt(s[1..], j - 1, k);
    }
  }

  lemma {:induction false} FindNone<V>(s: seq<Pair<V>>, k: HString)
    ensures Find(s, k).None? <==> forall j :: 0 <= j < |s| ==> !Eq(s[j].key, k)
  {
    if s != [] {
      FindNone(s[1..], k);
      assert forall j :: 1 <= j < |s| ==> s[j] == s[1..][j - 1];
      assert forall j :: 0 <= j < |s[1..]| ==> s[1..][j] == s[j + 1];
    }
  }

  lemma {:induction false} FindConcat<V>(s: seq<Pair<V>>, t: seq<Pair<V>>, k: HString)
    ensures Find(s + t, k) == if Has(s, k) then Find(s, k) else Find(t, k)
  {
    if s == [] {
      assert s + t == t;
    } else {
      assert (s + t)[1..] == s[1..] + t;
      FindConcat(s[1..], t, k);
    }
  }

  // ---- the laws that make the list a dictionary

  /** The latest value is found; every other key is unaffected. */
  lemma {:induction false} FindAfterPut<V>(s: seq<Pair<V>>, k: HString, v: V, q: HString)
    ensures Find(Put(s, k, v), q) == if Eq(k, q) then Some(v) else Find(s, q)
  {
    if s != [] && !Eq(s[0].key, k) {
      FindAfterPut(s[1..], k, v, q);
      assert Put(s, k, v)[1..] == Put(s[1..], k, v);
    }
  }

  /** A removed key is gone; every other key is unaffected. */
  lemma {:induction false} FindAfterDel<V>(s: seq<Pair<V>>, k: HString, q: HString)
    requires Distinct(s)
    ensures Find(Del(s, k), q) == if Eq(k, q) then None else Find(s, q)
  {
    if s == [] {
    } else if Eq(s[0].key, k) {
      if Eq(k, q) {
        FindNone(s[1..], q);
      }
    } else {
      FindAfterDel(s[1..], k, q);
      assert Del(s, k)[1..] == Del(s[1..], k);
    }
  }

  /** Updating keeps every key at its position; only the value at an equal key changes. */
  lemma {:induction false} PutKeepsPositions<V>(s: seq<Pair<V>>, k: HString, v: V)
    requires Distinct(s)
    ensures |Put(s, k, v)| == if Has(s, k) then |s| else |s| + 1
    ensures !Has(s, k) ==> Put(s, k, v) == s + [Pair(k, v)]
    ensures forall j :: 0 <= j < |s| ==>
      Put(s, k, v)[j] == if Eq(s[j].key, k) then Pair(s[j].key, v) else s[j]
    ensures Distinct(Put(s, k, v))
  {
    if s != [] {
      var t := s[1..];
      PutKeepsPositions(t, k, v);
      FindNone(s, k);
      if !Eq(s[0].key, k) {
        var r := Put(s, k, v);
        assert forall j :: 1 <= j < |r| ==> r[j] == Put(t, k, v)[j - 1];
        assert forall j :: 1 <= j < |s| ==> s[j] == t[j - 1];
      }
    }
  }

  /** Removal keeps the order of the other pairs. */
  lemma {:induction false} DelIsCut<V>(s: seq<Pair<V>>, k: HString, j: nat)
    requires j < |s| && Eq(s[j].key, k) && Distinct(s)
    ensures Del(s, k) == s[..j] + s[j + 1..]
    ensures Distinct(Del(s, k))
  {
    if j > 0 {
      DelIsCut(s[1..], k, j - 1);
      assert s[..j] + s[j + 1..] == [s[0]] + (s[1..][..j - 1] + s[1..][j..]);
    }
  }

  lemma {:induction false} DelAbsent<V>(s: seq<Pair<V>>, k: HString)
    requires !Has(s, k)
    ensures Del(s, k) == s
  {
    if s != [] {
      DelAbsent(s[1..], k);
    }
  }

  /** An update changes something unless the key already has that value. */
  lemma {:induction false} PutUnchanged<V>(s: seq<Pair<V>>, k: HString, v: V)
    ensures Put(s, k, v) == s <==> Find(s, k) == Some(v)
  {
    if s != [] {
      PutUnchanged(s[1..], k, v);
      if Eq(s[0].key, k) {
        assert Put(s, k, v)[0].value == v;
        assert s == [s[0]] + s[1..];
      } else {
        assert Put(s, k, v)[1..] == Put(s[1..], k, v);
        assert s == [s[0]] + s[1..];
      }
    }
  }

  /** A removal changes something unless the key is absent. */
  lemma {:induction false} DelUnchanged<V>(s: seq<Pair<V>>, k: HString)
    ensures Del(s, k) == s <==> !Has(s, k)
  {
    if s == [] || Eq(s[0].key, k) {
    } else {
      DelUnchanged(s[1..], k);
      assert Del(s, k)[1..] == Del(s[1..], k);
      assert s == [s[0]] + s[1..];
    }
  }

  /** Lookup does not depend on the order of the pairs. */
  lemma PermutationKeepsFind<V>(s: seq<Pair<V>>, t: seq<Pair<V>>, k: HString)
    requires Distinct(s) && Distinct(t)
    requires multiset(s) == multiset(t)
    ensures Find(s, k) == Find(t, k)
  {
    FindNone(s, k);
    FindNone(t, k);
    if Has(s, k) {
      var j :| 0 <= j < |s| && Eq(s[j].key, k);
      FindAt(s, j, k);
      assert s[j] in multiset(s);
      assert s[j] in t;
      var l :| 0 <= l < |t| && t[l] == s[j];
      FindAt(t, l, k);
    } else {
      forall j | 0 <= j < |t| ensures !Eq(t[j].key, k) {
        assert t[j] in multiset(t);
        assert t[j] in s;
      }
    }
  }
}

/** Whole runs of map operations, by one holder and by two that share, and what lookups return after them. */
module MapRuns {
  import opened HbsString
  import opened Options
  import opened AssocList
  import opened MapCapacity
  import HashMap
  import SortR

  datatype Op<!V> =
    | Add(key: HString, value: V)
    | Update(key: HString, value: V)
    | Remove(key: HString)
    | Lookup(key: HString)
    | Rehash(force: bool)
    | Sort(cmp: (Pair<V>, Pair<V>) -> int)

  datatype Out<V> = Done | Threw | Found(result: Option<V>)

  /** One operation on the association list: what it does to it and what it answers. */
  ghost predicate Step<V>(s: seq<Pair<V>>, op: Op<V>, t: seq<Pair<V>>, out: Out<V>) {
    match op
    case Add(k, v) => if Has(s, k) then t == s && out == Threw else t == s + [Pair(k, v)] && out == Done
    case Update(k, v) => t == Put(s, k, v) && out == Done
    case Remove(k) => t == Del(s, k) && out == Done
    case Lookup(k) => t == s && out == Found(Find(s, k))
    case Rehash(_) => t == s && out == Done
    case Sort(cmp) =>
      multiset(t) == multiset(s) && SortR.Sorted(cmp, t) && (forall k :: Find(t, k) == Find(s, k)) && out == Done
  }

  /** states[n] is the list before operation n, outs[n] the answer operation n gives. */
  ghost predicate Trace<V>(ops: seq<Op<V>>, states: seq<seq<Pair<V>>>, outs: seq<Out<V>>) {
    && |states| == |ops| + 1 && |outs| == |ops|
    && forall n :: 0 <= n < |ops| ==> Step(states[n], ops[n], states[n + 1], outs[n])
  }

  ghost predicate Comparison<V(!new)>(cmp: (Pair<V>, Pair<V>) -> int) {
    forall s: seq<Pair<V>> :: SortR.Orders(cmp, s)
  }

  /**
   The open-addressed map follows the association list through any run; whoever shared it at the start keeps its
   pairs.
   */
  method Run<V(!new)>(start: HashMap.HashMap<V>, ops: seq<Op<V>>)
    returns (m: HashMap.HashMap<V>, outs: seq<Out<V>>, ghost states: seq<seq<Pair<V>>>)
    requires start.Valid() && !start.isInIteration
    requires start.i + |ops| + 1 < REHASH_LIMIT
    requires forall n :: 0 <= n < |ops| && ops[n].Sort? ==> Comparison(ops[n].cmp)
    modifies start, start.vec, start.table
    ensures m.Valid()
    ensures Trace(ops, states, outs)
    ensures states[0] == old(start.Contents()) && states[|ops|] == m.Contents()
    ensures old(start.refcount) > 1 ==> start.Valid() && start.Contents() == old(start.Contents())
  {
    hide Step;
    m, outs := start, [];
    states := [m.Contents()];
    var n := 0;
    while n < |ops|
      invariant n <= |ops| && |states| == n + 1
      invariant m.Valid() && !m.isInIteration
      invariant m.i + |ops| - n + 1 < REHASH_LIMIT
      invariant m == start || (fresh(m) && fresh(m.vec) && fresh(m.table))
      invariant old(start.refcount) > 1 ==> start.Valid() && start.Contents() == old(start.Contents())
      invariant m == start ==> m.refcount == old(start.refcount)
      invariant Trace(ops[..n], states, outs)
      invariant states[0] == old(start.Contents()) && states[n] == m.Contents()
    {
      var out;
      ghost var before := m.Contents();
      m, out := Execute(m, ops[n]);
      TraceGrows(ops, n, states, outs, m.Contents(), out);
      outs, states := outs + [out], states + [m.Contents()];
      n := n + 1;
    }
    assert ops[..n] == ops;
  }

  lemma TraceGrows<V>(ops: seq<Op<V>>, n: nat, states: seq<seq<Pair<V>>>, outs: seq<Out<V>>, t: seq<Pair<V>>,
      out: Out<V>)
    requires n < |ops| && Trace(ops[..n], states, outs) && Step(states[n], ops[n], t, out)
    ensures Trace(ops[..n + 1], states + [t], outs + [out])
  {
    hide Step;
    assert ops[..n + 1] == ops[..n] + [ops[n]];
  }

  method Execute<V(!new)>(start: HashMap.HashMap<V>, op: Op<V>) returns (m: HashMap.HashMap<V>, out: Out<V>)
    requires start.Valid() && !start.isInIteration
    requires start.i + 2 < REHASH_LIMIT
    requires op.Sort? ==> Comparison(op.cmp)
    modifies start, start.vec, start.table
    ensures m.Valid() && !m.isInIteration
    ensures m.i <= old(start.i) + 1
    ensures Step(old(start.Contents()), op, m.Contents(), out)
    ensures m == start || (fresh(m) && fresh(m.vec) && fresh(m.table))
    ensures old(start.refcount) > 1 ==> start.Valid() && !start.isInIteration
    ensures old(start.refcount) > 1 ==> start.i == old(start.i) && start.Contents() == old(start.Contents())
    ensures m == start ==> start.refcount == old(start.refcount)
  {
    m, out := start, Done;
    ghost var s := start.Contents();
    Sizes(s, op);
    match op {
      case Add(k, v) =>
        var ok;
        m, ok := start.Add(k, v);
        if !ok { out := Threw; }
      case Update(k, v) => m := start.Update(k, v);
      case Remove(k) => m := start.Remove(k);
      case Lookup(k) =>
        var r := start.Lookup(k);
        out := Found(r);
      case Rehash(force) => m := start.Rehash(force);
      case Sort(cmp) =>
        m := start.Sort(cmp);
        assert |multiset(m.Contents())| == |multiset(s)|;
    }
  }

  lemma {:induction false} PutSize<V>(s: seq<Pair<V>>, k: HString, v: V)
    ensures |Put(s, k, v)| <= |s| + 1
  {
    if s != [] { PutSize(s[1..], k, v); }
  }

  lemma {:induction false} DelSize<V>(s: seq<Pair<V>>, k: HString)
    ensures |Del(s, k)| <= |s|
  {
    if s != [] { DelSize(s[1..], k); }
  }

  lemma Sizes<V>(s: seq<Pair<V>>, op: Op<V>)
    ensures op.Update? ==> |Put(s, op.key, op.value)| <= |s| + 1
    ensures op.Remove? ==> |Del(s, op.key)| <= |s|
  {
    match op
    case Update(k, v) => PutSize(s, k, v);
    case Remove(k) => DelSize(s, k);
    case _ =>
  }

  // ---- what a run leaves behind for one key

  /** What key q is bound to after a run, given what it was bound to before: the last operation on q decides. */
  function Latest<V>(before: Option<V>, ops: seq<Op<V>>, q: HString): Option<V> {
    if ops == [] then before
    else
      var sofar := Latest(before, ops[..|ops| - 1], q);
      match ops[|ops| - 1]
      case Add(k, v) => if Eq(k, q) && sofar.None? then Some(v) else sofar
      case Update(k, v) => if Eq(k, q) then Some(v) else sofar
      case Remove(k) => if Eq(k, q) then None else sofar
      case _ => sofar
  }

  lemma StepKeepsDistinct<V>(s: seq<Pair<V>>, op: Op<V>, t: seq<Pair<V>>, out: Out<V>)
    requires Distinct(s) && Step(s, op, t, out)
    ensures Distinct(t)
  {
    match op
    case Add(k, v) => FindNone(s, k);
    case Update(k, v) => PutKeepsPositions(s, k, v);
    case Remove(k) =>
      FindNone(s, k);
      if Has(s, k) {
        var j :| 0 <= j < |s| && Eq(s[j].key, k);
        DelIsCut(s, k, j);
      } else {
        DelAbsent(s, k);
      }
    case Sort(cmp) => PermutationDistinct(s, t);
    case _ =>
  }

  lemma PermutationDistinct<V>(s: seq<Pair<V>>, t: seq<Pair<V>>)
    requires Distinct(s) && multiset(s) == multiset(t)
    ensures Distinct(t)
  {
    forall a, b | 0 <= a < b < |t| ensures !Eq(t[a].key, t[b].key) {
      assert t[a] in multiset(t) && t[b] in multiset(t);
      var x :| 0 <= x < |s| && s[x] == t[a];
      var y :| 0 <= y < |s| && s[y] == t[b];
      if t[a] == t[b] {
        HashMap.OccursTwice(t, a, b);
        assert s == s[..x] + [s[x]] + s[x + 1..];
        assert multiset(s) == multiset(s[..x]) + multiset{s[x]} + multiset(s[x + 1..]);
        assert s[x] in s[..x] || s[x] in s[x + 1..];
      }
    }
  }

  lemma StepDecidesLookup<V>(s: seq<Pair<V>>, op: Op<V>, t: seq<Pair<V>>, out: Out<V>, before: Option<V>,
      ops: seq<Op<V>>, q: HString)
    requires Distinct(s) && Step(s, op, t, out) && Latest(before, ops, q) == Find(s, q)
    ensures Latest(before, ops + [op], q) == Find(t, q)
  {
    assert (ops + [op])[..|ops|] == ops;
    match op
    case Add(k, v) =>
      FindConcat(s, [Pair(k, v)], q);
      FindNone(s, k);
      FindNone(s, q);
    case Update(k, v) => FindAfterPut(s, k, v, q);
    case Remove(k) => FindAfterDel(s, k, q);
    case _ =>
  }

  /** Over every run, a lookup answers what the last operation on that key left, rehashes and sorts included. */
  lemma {:induction false} RunDecidesLookup<V>(ops: seq<Op<V>>, states: seq<seq<Pair<V>>>, outs: seq<Out<V>>,
      q: HString)
    requires Trace(ops, states, outs) && Distinct(states[0])
    ensures Distinct(states[|ops|])
    ensures Find(states[|ops|], q) == Latest(Find(states[0], q), ops, q)
  {
    if ops != [] {
      var n := |ops| - 1;
      RunDecidesLookup(ops[..n], states[..n + 1], outs[..n], q);
      var s, t := states[n], states[n + 1];
      assert Step(s, ops[n], t, outs[n]);
      StepKeepsDistinct(s, ops[n], t, outs[n]);
      assert ops == ops[..n] + [ops[n]];
      StepDecidesLookup(s, ops[n], t, outs[n], Find(states[0], q), ops[..n], q);
    }
  }

  /** Over every run, add throws exactly for keys some earlier operation (or the start) left bound. */
  lemma AddThrowsExactlyOnPresentKeys<V>(ops: seq<Op<V>>, states: seq<seq<Pair<V>>>, outs: seq<Out<V>>, n: nat)
    requires Trace(ops, states, outs) && Distinct(states[0])
    requires n < |ops| && ops[n].Add?
    ensures outs[n] == Threw <==> Latest(Find(states[0], ops[n].key), ops[..n], ops[n].key).Some?
  {
    assert Step(states[n], ops[n], states[n + 1], outs[n]);
    RunDecidesLookup(ops[..n], states[..n + 1], outs[..n], ops[n].key);
  }

  /** Keys are the same if they are as long and have the same hash: their characters are never compared. */
  lemma SameKeys<V>(s: seq<Pair<V>>, k: HString, v: V, q: HString)
    ensures Find(Put(s, k, v), q) == if |k.val| == |q.val| && k.hash == q.hash then Some(v) else Find(s, q)
    ensures Find(s, k).Some? <==> exists j :: 0 <= j < |s| && |s[j].key.val| == |k.val| && s[j].key.hash == k.hash
  {
    FindAfterPut(s, k, v, q);
    FindNone(s, k);
  }
}

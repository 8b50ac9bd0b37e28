/**
 Two holders of hash maps (src/handlebars_map.c). Copy on write gives each of them a map of its own, through any
 run of their interleaved operations; a write while a shared map is being iterated over is the one exception.
 */
module Sharing {
  import opened HbsString
  import opened Options
  import opened AssocList
  import opened MapCapacity
  import opened MapRuns
  import HashMap
  import OpenAddressing
  import MapShape

  /** An operation and the holder who does it. */
  datatype Turn<!V> = Turn(first: bool, op: Op<V>)

  /** What the two holders see. */
  datatype Views<V> = Views(first: seq<Pair<V>>, second: seq<Pair<V>>) {
    function Of(first: bool): seq<Pair<V>> {
      if first then this.first else second
    }
  }

  /** The holder whose turn it is sees its own operation, and the other sees nothing. */
  ghost predicate Taken<V>(before: Views<V>, turn: Turn<V>, after: Views<V>, out: Out<V>) {
    && Step(before.Of(turn.first), turn.op, after.Of(turn.first), out)
    && before.Of(!turn.first) == after.Of(!turn.first)
  }

  /** views[n] is what the holders see before turn n, outs[n] the answer turn n gives. */
  ghost predicate Turns<V>(turns: seq<Turn<V>>, views: seq<Views<V>>, outs: seq<Out<V>>) {
    && |views| == |turns| + 1 && |outs| == |turns|
    && forall n :: 0 <= n < |turns| ==> Taken(views[n], turns[n], views[n + 1], outs[n])
  }

  /** Two maps with nothing in common, or one map that knows it is shared. */
  ghost predicate Held<V>(a: HashMap.HashMap<V>, b: HashMap.HashMap<V>)
    reads a, b, a.vec, b.vec, a.table, b.table
  {
    && a.Valid() && b.Valid() && !a.isInIteration && !b.isInIteration
    && if a == b then a.refcount > 1 else a.vec != b.vec && a.table != b.table
  }

  /** Each holder's map follows that holder's own operations, whatever the other does in between. */
  method RunShared<V(!new)>(a: HashMap.HashMap<V>, b: HashMap.HashMap<V>, turns: seq<Turn<V>>)
    returns (a': HashMap.HashMap<V>, b': HashMap.HashMap<V>, outs: seq<Out<V>>, ghost views: seq<Views<V>>)
    requires Held(a, b)
    requires a.i + |turns| + 1 < REHASH_LIMIT && b.i + |turns| + 1 < REHASH_LIMIT
    requires forall n :: 0 <= n < |turns| && turns[n].op.Sort? ==> Comparison(turns[n].op.cmp)
    modifies a, b, a.vec, b.vec, a.table, b.table
    ensures Held(a', b')
    ensures Turns(turns, views, outs)
    ensures views[0] == Views(old(a.Contents()), old(b.Contents()))
    ensures views[|turns|] == Views(a'.Contents(), b'.Contents())
  {
    hide Taken;
    a', b', outs := a, b, [];
    views := [Views(a.Contents(), b.Contents())];
    var n := 0;
    while n < |turns|
      invariant n <= |turns| && |views| == n + 1
      invariant Held(a', b')
      invariant a'.i + |turns| - n + 1 < REHASH_LIMIT && b'.i + |turns| - n + 1 < REHASH_LIMIT
      invariant Ours(a', a, b) && Ours(b', a, b)
      invariant Turns(turns[..n], views, outs)
      invariant views[0] == Views(old(a.Contents()), old(b.Contents()))
      invariant views[n] == Views(a'.Contents(), b'.Contents())
    {
      var out;
      a', b', out := Take(a', b', turns[n]);
      TurnsGrow(turns, n, views, outs, Views(a'.Contents(), b'.Contents()), out);
      outs, views := outs + [out], views + [Views(a'.Contents(), b'.Contents())];
      n := n + 1;
    }
    assert turns[..n] == turns;
  }

  /** m is one of the maps a run started with, or made during the run. */
  twostate predicate Ours<V>(new m: HashMap.HashMap<V>, a: HashMap.HashMap<V>, b: HashMap.HashMap<V>) {
    m == a || m == b || (fresh(m) && fresh(m.vec) && fresh(m.table))
  }

  lemma TurnsGrow<V>(turns: seq<Turn<V>>, n: nat, views: seq<Views<V>>, outs: seq<Out<V>>, view: Views<V>, out: Out<V>)
    requires n < |turns| && Turns(turns[..n], views, outs) && Taken(views[n], turns[n], view, out)
    ensures Turns(turns[..n + 1], views + [view], outs + [out])
  {
    hide Step;
    assert turns[..n + 1] == turns[..n] + [turns[n]];
  }

  /** A turn of either holder. */
  method Take<V(!new)>(a: HashMap.HashMap<V>, b: HashMap.HashMap<V>, turn: Turn<V>)
    returns (a': HashMap.HashMap<V>, b': HashMap.HashMap<V>, out: Out<V>)
    requires Held(a, b) && a.i + 2 < REHASH_LIMIT && b.i + 2 < REHASH_LIMIT
    requires turn.op.Sort? ==> Comparison(turn.op.cmp)
    modifies a, b, a.vec, b.vec, a.table, b.table
    ensures Held(a', b')
    ensures Taken(Views(old(a.Contents()), old(b.Contents())), turn, Views(a'.Contents(), b'.Contents()), out)
    ensures a'.i <= old(a.i) + 1 && b'.i <= old(b.i) + 1
    ensures Ours(a', a, b) && Ours(b', a, b)
  {
    hide Step;
    a', b' := a, b;
    if turn.first {
      a', out := TakeTurn(a, b, turn.op);
    } else {
      b', out := TakeTurn(b, a, turn.op);
    }
  }

  /** One operation of the holder of m; the holder of other keeps its map. */
  method TakeTurn<V(!new)>(m: HashMap.HashMap<V>, other: HashMap.HashMap<V>, op: Op<V>)
    returns (m': HashMap.HashMap<V>, out: Out<V>)
    requires Held(m, other) && m.i + 2 < REHASH_LIMIT
    requires op.Sort? ==> Comparison(op.cmp)
    modifies m, m.vec, m.table
    ensures Held(m', other)
    ensures Step(old(m.Contents()), op, m'.Contents(), out) && other.Contents() == old(other.Contents())
    ensures m'.i <= old(m.i) + 1 && other.i == old(other.i)
    ensures m' == m || (fresh(m') && fresh(m'.vec) && fresh(m'.table))
  {
    m', out := Execute(m, op);
  }

  // ---- what a holder finds

  /** The operations of one holder, in order. */
  function Own<V>(turns: seq<Turn<V>>, first: bool): seq<Op<V>> {
    if turns == [] then []
    else
      var last := turns[|turns| - 1];
      Own(turns[..|turns| - 1], first) + if last.first == first then [last.op] else []
  }

  /** A lookup answers what that holder's own last operation on the key left, as if the other did not exist. */
  lemma {:induction false} HoldersDoNotMeet<V>(turns: seq<Turn<V>>, views: seq<Views<V>>, outs: seq<Out<V>>, who: bool,
      q: HString)
    requires Turns(turns, views, outs) && Distinct(views[0].Of(who))
    ensures Distinct(views[|turns|].Of(who))
    ensures Find(views[|turns|].Of(who), q) == Latest(Find(views[0].Of(who), q), Own(turns, who), q)
  {
    hide Latest, Find, Distinct;
    if turns != [] {
      var n := |turns| - 1;
      HoldersDoNotMeet(turns[..n], views[..n + 1], outs[..n], who, q);
      assert Taken(views[n], turns[n], views[n + 1], outs[n]);
      hide Step;
      if turns[n].first == who {
        var s, t := views[n].Of(who), views[n + 1].Of(who);
        StepKeepsDistinct(s, turns[n].op, t, outs[n]);
        StepDecidesLookup(s, turns[n].op, t, outs[n], Find(views[0].Of(who), q), Own(turns[..n], who), q);
      } else {
        assert Own(turns, who) == Own(turns[..n], who);
      }
    } else {
      LatestOfNone(Find(views[0].Of(who), q), q);
    }
  }

  lemma LatestOfNone<V>(before: Option<V>, q: HString)
    ensures Latest(before, [], q) == before
  {
  }

  /** Over every run, add throws exactly for a key that holder itself has left bound. */
  lemma AddThrowsForOwnKeys<V>(turns: seq<Turn<V>>, views: seq<Views<V>>, outs: seq<Out<V>>, n: nat)
    requires Turns(turns, views, outs) && n < |turns| && turns[n].op.Add?
    requires Distinct(views[0].Of(turns[n].first))
    ensures outs[n] == Threw <==>
      var k := turns[n].op.key;
      Latest(Find(views[0].Of(turns[n].first), k), Own(turns[..n], turns[n].first), k).Some?
  {
    var who, op := turns[n].first, turns[n].op;
    HoldersDoNotMeet(turns[..n], views[..n + 1], outs[..n], who, op.key);
    assert Step(views[n].Of(who), op, views[n + 1].Of(who), outs[n]);
  }

  // ---- the exception

  /** Two holders of one map, one of whom updates it: during an iteration the other holder's value changes too. */
  method WriteThroughIteration(key: HString, iterating: bool) returns (before: Option<int>, after: Option<int>)
    ensures before == Some(1) && after == Some(if iterating then 2 else 1)
  {
    hide OpenAddressing.Inv, OpenAddressing.Pairs, OpenAddressing.KeysDistinct, MapShape.Rehashed, MapShape.Appended;
    var m := new HashMap.HashMap<int>(2);
    m.AddRef();
    var ok;
    m, ok := m.Add(key, 1);
    m.AddRef();
    var other := m;
    m.isInIteration := iterating;
    before := other.Lookup(key);
    m := m.Update(key, 2);
    after := other.Lookup(key);
  }
}

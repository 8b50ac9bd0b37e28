/** The doubly linked list of src/handlebars_ast_list.c. */
module AstList {

  class Item<T> {
    const data: T
    var next: Item?<T>
    var prev: Item?<T>

    constructor (data: T)
      ensures this.data == data && next == null && prev == null
    {
      this.data, next, prev := data, null, null;
    }
  }

  /** The item at position n; no item beyond either end. */
  function At<T>(items: seq<Item<T>>, n: int): Item?<T> {
    if 0 <= n < |items| then items[n] else null
  }

  ghost predicate Distinct<T>(items: seq<Item<T>>) {
    forall a, b :: 0 <= a < b < |items| ==> items[a] != items[b]
  }

  function DataOf<T>(items: seq<Item<T>>): (r: seq<T>)
    ensures |r| == |items| && forall n :: 0 <= n < |items| ==> r[n] == items[n].data
  {
    seq(|items|, n requires 0 <= n < |items| => items[n].data)
  }

  /** The pointers of the item at position n are its neighbours. */
  ghost predicate Fits<T>(items: seq<Item<T>>, n: nat)
    requires n < |items|
    reads items[n]
  {
    items[n].next == At(items, n + 1) && items[n].prev == At(items, n - 1)
  }

  function Inserted<T>(s: seq<Item<T>>, n: nat, x: Item<T>): seq<Item<T>>
    requires n <= |s|
  {
    s[..n] + [x] + s[n..]
  }

  function Cut<T>(s: seq<Item<T>>, n: nat): seq<Item<T>>
    requires n < |s|
  {
    s[..n] + s[n + 1..]
  }

  lemma InsertedDistinct<T>(s: seq<Item<T>>, n: nat, x: Item<T>)
    requires n <= |s| && Distinct(s) && x !in s
    ensures Distinct(Inserted(s, n, x))
  {
    var t := Inserted(s, n, x);
    forall a, b | 0 <= a < b < |t| ensures t[a] != t[b] {
      assert a != n ==> t[a] == s[if a < n then a else a - 1];
      assert b != n ==> t[b] == s[if b < n then b else b - 1];
    }
  }

  lemma CutDistinct<T>(s: seq<Item<T>>, n: nat)
    requires n < |s| && Distinct(s)
    ensures Distinct(Cut(s, n))
  {
    var t := Cut(s, n);
    forall a, b | 0 <= a < b < |t| ensures t[a] != t[b] {
      assert t[a] == s[if a < n then a else a + 1] && t[b] == s[if b < n then b else b + 1];
    }
  }

  class List<T(==)> {
    var first: Item?<T>
    var last: Item?<T>
    var count: nat
    /** The items in list order. */
    ghost var items: seq<Item<T>>

    /** Every next and prev pointer agrees with the order of the items. */
    ghost predicate Linked()
      reads this, items
    {
      && Distinct(items)
      && first == At(items, 0) && last == At(items, |items| - 1)
      && forall n :: 0 <= n < |items| ==> Fits(items, n)
    }

    ghost predicate Valid()
      reads this, items
    {
      Linked() && count == |items|
    }

    ghost function Contents(): seq<T>
      reads this
    {
      DataOf(items)
    }

    constructor ()
      ensures Valid() && items == []
    {
      first, last, count, items := null, null, 0, [];
    }

    /** Links a new item behind one of the list's; it does not count it. */
    method InsertAfter(item: Item<T>, newItem: Item<T>, ghost n: nat)
      requires Linked() && n < |items| && items[n] == item && newItem !in items
      modifies this`last, this`items, items, newItem
      ensures Linked() && items == Inserted(old(items), n + 1, newItem)
    {
      ghost var s := items;
      assert Fits(s, n);
      newItem.prev := item;
      newItem.next := item.next;
      if item.next == null {
        last := newItem;
      } else {
        item.next.prev := newItem;
      }
      item.next := newItem;
      InsertedDistinct(s, n + 1, newItem);
      items := Inserted(s, n + 1, newItem);
      forall k | 0 <= k < |items| ensures Fits(items, k) {
        if k < n + 1 {
          assert items[k] == s[k] && old(Fits(items, k));
        } else if k > n + 1 {
          assert items[k] == s[k - 1] && old(Fits(items, k - 1));
        }
      }
    }

    /** Links a new item in front of one of the list's; it does not count it. */
    method InsertBefore(item: Item<T>, newItem: Item<T>, ghost n: nat)
      requires Linked() && n < |items| && items[n] == item && newItem !in items
      modifies this`first, this`items, items, newItem
      ensures Linked() && items == Inserted(old(items), n, newItem)
    {
      ghost var s := items;
      assert Fits(s, n);
      newItem.prev := item.prev;
      newItem.next := item;
      if item.prev == null {
        first := newItem;
      } else {
        item.prev.next := newItem;
      }
      item.prev := newItem;
      InsertedDistinct(s, n, newItem);
      items := Inserted(s, n, newItem);
      forall k | 0 <= k < |items| ensures Fits(items, k) {
        if k < n {
          assert items[k] == s[k] && old(Fits(items, k));
        } else if k > n {
          assert items[k] == s[k - 1] && old(Fits(items, k - 1));
        }
      }
    }

    method Append(data: T)
      requires Valid()
      modifies this, items
      ensures Valid() && Contents() == old(Contents()) + [data]
      ensures |items| == |old(items)| + 1 && items[..|old(items)|] == old(items) && fresh(items[|old(items)|])
    {
      var item := new Item<T>(data);
      if last == null {
        first, last := item, item;
        items := [item];
      } else {
        InsertAfter(last, item, |items| - 1);
      }
      count := count + 1;
    }

    method Prepend(data: T)
      requires Valid()
      modifies this, items
      ensures Valid() && Contents() == [data] + old(Contents())
      ensures |items| == |old(items)| + 1 && items[1..] == old(items) && fresh(items[0])
    {
      var item := new Item<T>(data);
      if first == null {
        first, last := item, item;
        items := [item];
      } else {
        InsertBefore(first, item, 0);
      }
      count := count + 1;
    }

    /** The first item with the given data. */
    method Find(data: T) returns (r: Item?<T>, ghost at: nat)
      requires Linked()
      ensures at <= |items| && r == At(items, at)
      ensures forall k :: 0 <= k < at ==> items[k].data != data
      ensures r != null ==> r.data == data
    {
      at := 0;
      r := first;
      while r != null
        invariant at <= |items| && r == At(items, at)
        invariant forall k :: 0 <= k < at ==> items[k].data != data
        decreases |items| - at
      {
        if r.data == data {
          return;
        }
        assert Fits(items, at);
        r := r.next;
        at := at + 1;
      }
    }

    /** Takes out the first item with the given data. */
    method Remove(data: T) returns (removed: bool, ghost at: nat)
      requires Valid()
      modifies this, items
      ensures Valid()
      ensures removed <==> data in old(Contents())
      ensures removed ==> at < |old(items)| && old(items)[at].data == data && items == Cut(old(items), at)
      ensures forall k :: 0 <= k < at && k < |old(items)| ==> old(items)[k].data != data
      ensures !removed ==> items == old(items)
    {
      if first == null || last == null {
        return false, 0;
      }
      var found;
      found, at := Find(data);
      if found == null {
        return false, at;
      }
      assert items[at].data == DataOf(items)[at];
      Unlink(found, at);
      count := count - 1;
      removed := true;
    }

    method Unlink(found: Item<T>, ghost at: nat)
      requires Linked() && at < |items| && items[at] == found
      modifies this`first, this`last, this`items, items
      ensures Linked() && items == Cut(old(items), at)
    {
      ghost var s := items;
      assert Fits(s, at);
      if found.prev == null {
        first := found.next;
      } else {
        found.prev.next := found.next;
      }
      if found.next == null {
        last := found.prev;
      } else {
        found.next.prev := found.prev;
      }
      CutDistinct(s, at);
      items := Cut(s, at);
      forall k | 0 <= k < |items| ensures Fits(items, k) {
        var j := if k < at then k else k + 1;
        assert items[k] == s[j] && old(Fits(items, j));
      }
    }
  }
}

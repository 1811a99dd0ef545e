/** One view of a level: key intervals, each owning one table. */
module LevelViews {
  import opened Buffers

  datatype Item = Item(begin: Key, end: Key, id: nat)

  /** The first item whose end key is not below `key`. */
  function Find(cmp: Comparator, items: seq<Item>, key: Key): nat {
    if items == [] || cmp(items[0].end, key) != -1 then 0 else 1 + Find(cmp, items[1..], key)
  }

  function FindId(cmp: Comparator, items: seq<Item>, key: Key): Option<nat> {
    var i := Find(cmp, items, key);
    if i < |items| && cmp(items[i].begin, key) != 1 then Some(items[i].id) else None
  }

  predicate IsNotOverlapped(cmp: Comparator, items: seq<Item>, begin: Key, end: Key) {
    var i := Find(cmp, items, begin);
    i < |items| ==>
      && cmp(items[i].begin, begin) == 1
      && Find(cmp, items, end) == i
      && cmp(items[i].begin, end) == 1
  }

  /** The items after a successful insertion. */
  function Insert(cmp: Comparator, items: seq<Item>, begin: Key, end: Key, id: nat): seq<Item> {
    var i := Find(cmp, items, begin);
    if i < |items| then items[..i] + [Item(begin, end, id)] + items[i..] else items + [Item(begin, end, id)]
  }

  ghost predicate Contains(cmp: Comparator, item: Item, key: Key) {
    Le(cmp, item.begin, key) && Le(cmp, key, item.end)
  }

  ghost predicate Disjoint(cmp: Comparator, a: Item, begin: Key, end: Key) {
    cmp(a.end, begin) == -1 || cmp(end, a.begin) == -1
  }

  /** Non-empty intervals in ascending order, no two sharing a key. */
  ghost predicate Sorted(cmp: Comparator, items: seq<Item>) {
    && (forall i :: 0 <= i < |items| ==> Le(cmp, items[i].begin, items[i].end))
    && (forall i, j :: 0 <= i < j < |items| ==> cmp(items[i].end, items[j].begin) == -1)
  }

  lemma {:induction false} FindSplits(cmp: Comparator, items: seq<Item>, key: Key)
    ensures Find(cmp, items, key) <= |items|
    ensures forall j :: 0 <= j < Find(cmp, items, key) ==> cmp(items[j].end, key) == -1
    ensures Find(cmp, items, key) < |items| ==> cmp(items[Find(cmp, items, key)].end, key) != -1
  {
    if items != [] && cmp(items[0].end, key) == -1 {
      FindSplits(cmp, items[1..], key);
    }
  }

  /** `FindId` answers the id of the one interval containing the key, and nothing when none does. */
  lemma {:induction false} FindIdExact(cmp: Comparator, items: seq<Item>, key: Key)
    requires IsComparator(cmp) && Sorted(cmp, items)
    ensures FindId(cmp, items, key) == None <==> forall j :: 0 <= j < |items| ==> !Contains(cmp, items[j], key)
    ensures forall j :: 0 <= j < |items| && Contains(cmp, items[j], key) ==>
            FindId(cmp, items, key) == Some(items[j].id)
  {
    FindSplits(cmp, items, key);
    var i := Find(cmp, items, key);
    forall j | i < j < |items|
      ensures cmp(key, items[j].begin) == -1
    {
      assert cmp(items[i].end, items[j].begin) == -1;
    }
  }

  /** An insertion is allowed exactly when the new interval shares no key with any stored one. */
  lemma {:induction false} NotOverlappedExact(cmp: Comparator, items: seq<Item>, begin: Key, end: Key)
    requires IsComparator(cmp) && Sorted(cmp, items) && Le(cmp, begin, end)
    ensures IsNotOverlapped(cmp, items, begin, end) <==>
            forall j :: 0 <= j < |items| ==> Disjoint(cmp, items[j], begin, end)
  {
    FindSplits(cmp, items, begin);
    FindSplits(cmp, items, end);
    var i, k := Find(cmp, items, begin), Find(cmp, items, end);
    if IsNotOverlapped(cmp, items, begin, end) {
      forall j | 0 <= j < |items| ensures Disjoint(cmp, items[j], begin, end) {
        if i < j {
          assert cmp(items[i].end, items[j].begin) == -1;
          assert Le(cmp, items[i].begin, items[i].end);
        }
      }
    }
    if forall j :: 0 <= j < |items| ==> Disjoint(cmp, items[j], begin, end) {
      if i < |items| {
        assert Disjoint(cmp, items[i], begin, end);
        assert Le(cmp, items[i].begin, items[i].end);
        assert k >= i;
      }
    }
  }

  lemma {:induction false} SplitAround(cmp: Comparator, items: seq<Item>, i: nat, item: Item)
    requires IsComparator(cmp) && Sorted(cmp, items) && Le(cmp, item.begin, item.end) && i <= |items|
    requires forall j :: 0 <= j < i ==> cmp(items[j].end, item.begin) == -1
    requires i < |items| ==> cmp(item.end, items[i].begin) == -1
    ensures Sorted(cmp, items[..i] + [item] + items[i..])
  {
  }

  lemma {:induction false} InsertKeepsSorted(cmp: Comparator, items: seq<Item>, begin: Key, end: Key, id: nat)
    requires IsComparator(cmp) && Sorted(cmp, items) && Le(cmp, begin, end)
    requires IsNotOverlapped(cmp, items, begin, end)
    ensures Sorted(cmp, Insert(cmp, items, begin, end, id))
    ensures multiset(Insert(cmp, items, begin, end, id)) == multiset(items) + multiset{Item(begin, end, id)}
  {
    FindSplits(cmp, items, begin);
    var i := Find(cmp, items, begin);
    SplitAround(cmp, items, i, Item(begin, end, id));
    assert items == items[..i] + items[i..];
    assert i == |items| ==> items[..i] + [Item(begin, end, id)] + items[i..] == items + [Item(begin, end, id)];
  }

  class LevelView {
    var id: nat
    var items: seq<Item>
    const cmp: Comparator

    constructor (id: nat, cmp: Comparator)
      ensures this.id == id && items == [] && this.cmp == cmp
    {
      this.id, this.items, this.cmp := id, [], cmp;
    }

    method TryPut(begin: Key, end: Key, tableId: nat) returns (done: bool)
      requires IsComparator(cmp) && Sorted(cmp, items) && Le(cmp, begin, end)
      modifies this`items
      ensures Sorted(cmp, items)
      ensures done <==> forall j :: 0 <= j < |old(items)| ==> Disjoint(cmp, old(items)[j], begin, end)
      ensures multiset(items)
              == multiset(old(items)) + (if done then multiset{Item(begin, end, tableId)} else multiset{})
      ensures items == if done then Insert(cmp, old(items), begin, end, tableId) else old(items)
    {
      NotOverlappedExact(cmp, items, begin, end);
      var i := Find(cmp, items, begin);
      FindSplits(cmp, items, begin);
      if i < |items| {
        if cmp(items[i].begin, begin) != 1 {
          return false;
        }
        var k := Find(cmp, items, end);
        if k != i {
          return false;
        }
        if cmp(items[k].begin, end) != 1 {
          return false;
        }
        InsertKeepsSorted(cmp, items, begin, end, tableId);
        items := items[..i] + [Item(begin, end, tableId)] + items[i..];
        return true;
      }
      InsertKeepsSorted(cmp, items, begin, end, tableId);
      items := items + [Item(begin, end, tableId)];
      return true;
    }

    /** Removes the first item with the given table id, if any. */
    method Delete(tableId: nat)
      requires Sorted(cmp, items)
      modifies this`items
      ensures Sorted(cmp, items)
      ensures (forall j :: 0 <= j < |old(items)| ==> old(items)[j].id != tableId) ==> items == old(items)
      ensures forall j :: 0 <= j < |old(items)| && old(items)[j].id == tableId
                && (forall k :: 0 <= k < j ==> old(items)[k].id != tableId)
                ==> items == old(items)[..j] + old(items)[j + 1..]
    {
      var i := 0;
      while i < |items|
        invariant 0 <= i <= |items|
        invariant items == old(items)
        invariant forall k :: 0 <= k < i ==> items[k].id != tableId
      {
        if items[i].id == tableId {
          items := items[..i] + items[i + 1..];
          return;
        }
        i := i + 1;
      }
    }
  }
}

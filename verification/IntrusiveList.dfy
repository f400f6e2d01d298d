/**
 The circular intrusive list of include/ptl/containers/list.hpp: entries rewired in place, lists as
 sentinel rings, items with two entries that may stand in two lists at once.

 The pointer arithmetic between an item and its entry is the bijection given by the fields
 `entry1`, `entry2` of the item and `item` of the entry.
 */
module IntrusiveList {

  class Entry {
    var next: Entry
    var prev: Entry
    var item: Item?

    constructor ()
      ensures next == this && prev == this && item == null
    {
      next, prev, item := this, this, null;
    }
  }

  class Item {
    const entry1: Entry
    const entry2: Entry

    constructor ()
      ensures fresh(entry1) && fresh(entry2) && entry1 != entry2
      ensures entry1.item == this && entry2.item == this
      ensures Ring([entry1]) && Ring([entry2])
    {
      entry1 := new Entry();
      entry2 := new Entry();
      new;
      entry1.item := this;
      entry2.item := this;
    }
  }

  // ---------------------------------------------------------------- rings

  function Succ(i: nat, n: nat): nat
  {
    if i + 1 < n then i + 1 else 0
  }

  /** The entries of r, in order, form one ring: distinct, with next and prev mutually inverse. */
  ghost predicate Ring(r: seq<Entry>)
    reads r
  {
    && r != []
    && (forall i, j :: 0 <= i < j < |r| ==> r[i] != r[j])
    && (forall i :: 0 <= i < |r| ==> LinkedAt(r, i))
  }

  ghost predicate LinkedAt(r: seq<Entry>, i: nat)
    requires i < |r|
    reads r
  {
    Linked(r[i], r[Succ(i, |r|)])
  }

  ghost predicate Linked(a: Entry, b: Entry)
    reads a, b
  {
    a.next == b && b.prev == a
  }

  function Without<T>(s: seq<T>, k: nat): seq<T>
    requires k < |s|
  {
    s[..k] + s[k + 1..]
  }

  function With<T>(s: seq<T>, k: nat, x: T): seq<T>
    requires k <= |s|
  {
    s[..k] + [x] + s[k..]
  }

  /** Who stands where, and before whom, once position k is taken out of a ring. */
  lemma WithoutNext<T>(r: seq<T>, k: nat, i: nat)
    requires k < |r| && i < |r| - 1
    ensures var j := if i < k then i else i + 1; var s := Without(r, k);
      s[i] == r[j] && s[Succ(i, |s|)] == if Succ(j, |r|) == k then r[Succ(k, |r|)] else r[Succ(j, |r|)]
  {
  }

  /** And once x is put in at position k, after some other. */
  lemma WithNext<T>(r: seq<T>, k: nat, x: T, i: nat)
    requires 0 < k <= |r| && i <= |r|
    ensures var j := if i < k then i else i - 1; var s := With(r, k, x);
      if i == k then s[i] == x && s[Succ(i, |s|)] == r[Succ(j, |r|)]
      else s[i] == r[j] && s[Succ(i, |s|)] == if j == k - 1 then x else r[Succ(j, |r|)]
  {
  }

  /** ListEntry::remove. The rest of the ring closes up; a detached entry stays as it is. */
  method Remove(e: Entry, ghost r: seq<Entry>, ghost k: nat)
    requires Ring(r) && k < |r| && r[k] == e
    modifies (set x | x in r)`next, (set x | x in r)`prev
    ensures Ring([e])
    ensures |r| > 1 ==> Ring(Without(r, k))
  {
    ghost var before := if k == 0 then |r| - 1 else k - 1;
    assert LinkedAt(r, before) && LinkedAt(r, k);
    var prev := e.prev;
    var next := e.next;
    e.next.prev := prev;
    e.prev.next := next;
    e.next, e.prev := e, e;
    ghost var s := Without(r, k);
    forall i | 0 <= i < |s| ensures LinkedAt(s, i) {
      assert old(LinkedAt(r, if i < k then i else i + 1));
      WithoutNext(r, k, i);
    }
  }

  /** ListEntry::insert_before. Whatever e was linked to before is simply overwritten. */
  method InsertBefore(e: Entry, other: Entry, ghost r: seq<Entry>, ghost k: nat)
    requires Ring(r) && k < |r| && r[k] == other && e !in r
    modifies e`next, e`prev, (set x | x in r)`next, (set x | x in r)`prev
    ensures Ring(if k == 0 then r + [e] else With(r, k, e))
  {
    ghost var at := if k == 0 then |r| else k;
    assert LinkedAt(r, at - 1);
    e.next := other;
    e.prev := other.prev;
    e.next.prev := e;
    e.prev.next := e;
    ghost var s := With(r, at, e);
    forall i | 0 <= i < |s| ensures LinkedAt(s, i) {
      assert old(LinkedAt(r, if i < at then i else i - 1));
      WithNext(r, at, e, i);
    }
    assert k == 0 ==> s == r + [e];
  }

  /** ListEntry::insert_after. */
  method InsertAfter(e: Entry, other: Entry, ghost r: seq<Entry>, ghost k: nat)
    requires Ring(r) && k < |r| && r[k] == other && e !in r
    modifies e`next, e`prev, (set x | x in r)`next, (set x | x in r)`prev
    ensures Ring(With(r, k + 1, e))
  {
    assert LinkedAt(r, k);
    e.prev := other;
    e.next := other.next;
    e.prev.next := e;
    e.next.prev := e;
    ghost var s := With(r, k + 1, e);
    forall i | 0 <= i < |s| ensures LinkedAt(s, i) {
      assert old(LinkedAt(r, if i < k + 1 then i else i - 1));
      WithNext(r, k + 1, e, i);
    }
  }

  // ---------------------------------------------------------------- lists

  /** Which of an item's entries a list links: the binding of the source. */
  datatype Binding = First | Second

  function EntryOf(b: Binding, item: Item): Entry
  {
    match b
    case First => item.entry1
    case Second => item.entry2
  }

  class List {
    const binding: Binding
    const head: Entry

    /** The items in order, the ring (the sentinel, then the entry of each item), and its entries as a set. */
    ghost var items: seq<Item>
    ghost var ring: seq<Entry>
    ghost var nodes: set<Entry>

    /** Sentinel and entries are those of `items`. */
    ghost predicate Listed()
      reads this, nodes
    {
      && nodes == (set e | e in ring)
      && |ring| == |items| + 1 && ring[0] == head && head.item == null
      && forall i :: 0 <= i < |items| ==> ring[i + 1] == EntryOf(binding, items[i]) && ring[i + 1].item == items[i]
    }

    ghost predicate Valid()
      reads this, nodes
    {
      Listed() && Ring(ring)
    }

    constructor (binding: Binding)
      ensures Valid() && items == [] && this.binding == binding && fresh(nodes)
    {
      this.binding := binding;
      head := new Entry();
      new;
      items, ring, nodes := [], [head], {head};
    }

    /** The item's entry is in no ring but its own. */
    ghost predicate Detached(item: Item)
      reads this, EntryOf(binding, item)
    {
      var e := EntryOf(binding, item);
      e !in nodes && Linked(e, e) && e.item == item
    }

    method Empty() returns (empty: bool)
      requires Valid()
      ensures empty <==> items == []
    {
      assert LinkedAt(ring, 0);
      empty := head.next == head;
    }

    method Front() returns (item: Item?)
      requires Valid()
      ensures if items == [] then item == null else item == items[0]
    {
      assert LinkedAt(ring, 0);
      var empty := Empty();
      if empty {
        return null;
      }
      item := head.next.item;
    }

    method Back() returns (item: Item?)
      requires Valid()
      ensures if items == [] then item == null else item == items[|items| - 1]
    {
      assert LinkedAt(ring, |ring| - 1);
      var empty := Empty();
      if empty {
        return null;
      }
      item := head.prev.item;
    }

    method PushBack(item: Item)
      requires Valid() && Detached(item)
      modifies this, EntryOf(binding, item)`next, EntryOf(binding, item)`prev, nodes`next, nodes`prev
      ensures Valid() && items == old(items) + [item] && nodes == old(nodes) + {EntryOf(binding, item)}
    {
      var e := EntryOf(binding, item);
      InsertBefore(e, head, ring, 0);
      items, ring, nodes := items + [item], ring + [e], nodes + {e};
    }

    method PushFront(item: Item)
      requires Valid() && Detached(item)
      modifies this, EntryOf(binding, item)`next, EntryOf(binding, item)`prev, nodes`next, nodes`prev
      ensures Valid() && items == [item] + old(items) && nodes == old(nodes) + {EntryOf(binding, item)}
    {
      var e := EntryOf(binding, item);
      InsertAfter(e, head, ring, 0);
      items, ring, nodes := [item] + items, With(ring, 1, e), nodes + {e};
    }

    ghost predicate Knows(item: Item)
      reads this, EntryOf(binding, item)
    {
      item in items || Detached(item)
    }

    /**
     Removing an item's entry, wherever it stands, as the entry's destructor does. A detached entry
     is left alone.
     */
    method Unlink(item: Item)
      requires Valid() && Knows(item)
      modifies this, EntryOf(binding, item)`next, EntryOf(binding, item)`prev, nodes`next, nodes`prev
      ensures Valid() && Detached(item) && items == Erase(old(items), item)
      ensures nodes == old(nodes) - {EntryOf(binding, item)}
    {
      var e := EntryOf(binding, item);
      ghost var linked := item in items;
      ghost var k := if linked then IndexOf(items, item) else 0;
      ghost var r := ring;
      assert linked ==> e == ring[k + 1];
      Remove(e, if linked then ring else [e], if linked then k + 1 else 0);
      assert LinkedAt([e], 0);
      if linked {
        Forget(k);
      }
    }

    /** An entry has left the ring, and so its item the list. */
    ghost method Forget(k: nat)
      requires Listed() && k < |items| && Ring(Without(ring, k + 1))
      requires forall i, j :: 0 <= i < j < |ring| ==> ring[i] != ring[j]
      modifies this
      ensures Valid() && items == Without(old(items), k) && nodes == old(nodes) - {old(ring[k + 1])}
    {
      WithoutMembers(ring, k + 1);
      items, ring, nodes := Without(items, k), Without(ring, k + 1), nodes - {ring[k + 1]};
    }
  }

  lemma WithoutMembers<T>(s: seq<T>, k: nat)
    requires k < |s| && forall i, j :: 0 <= i < j < |s| ==> s[i] != s[j]
    ensures forall x :: x in Without(s, k) <==> x in s && x != s[k]
  {
    assert s == s[..k] + [s[k]] + s[k + 1..];
  }

  // ---------------------------------------------------------------- destruction

  ghost function IndexOf<T>(s: seq<T>, x: T): (k: nat)
    requires x in s
    ensures k < |s| && s[k] == x && x !in s[..k]
  {
    if s[0] == x then 0 else IndexOf(s[1..], x) + 1
  }

  ghost function Erase<T>(s: seq<T>, x: T): seq<T>
  {
    if x in s then Without(s, IndexOf(s, x)) else s
  }

  ghost function EraseAll<T>(s: seq<T>, xs: seq<T>): seq<T>
  {
    if xs == [] then s else EraseAll(Erase(s, xs[0]), xs[1..])
  }

  /** Erasing from a list without repetitions leaves exactly the items not erased. */
  lemma {:induction false} EraseAllMembers<T>(s: seq<T>, xs: seq<T>, y: T)
    requires forall i, j :: 0 <= i < j < |s| ==> s[i] != s[j]
    ensures y in EraseAll(s, xs) <==> y in s && y !in xs
  {
    if xs != [] {
      if xs[0] in s {
        WithoutMembers(s, IndexOf(s, xs[0]));
      }
      EraseAllMembers(Erase(s, xs[0]), xs[1..], y);
    }
  }

  // ---- lists that share no entry, any number of them and of either binding

  ghost predicate Family(lists: set<List>)
    reads lists, Nodes(lists)
  {
    && (forall l :: l in lists ==> l.Valid())
    && (forall l, m :: l in lists && m in lists && l != m ==> Apart(l, m))
  }

  ghost predicate Apart(l: List, m: List)
    reads l, m
  {
    l.nodes !! m.nodes
  }

  ghost function Nodes(lists: set<List>): set<Entry>
    reads lists
  {
    set l, e | l in lists && e in l.nodes :: e
  }

  ghost function Entries(items: set<Item>): set<Entry>
  {
    (set x | x in items :: x.entry1) + (set x | x in items :: x.entry2)
  }

  /** An entry of the item, standing in one of the lists or detached. */
  ghost predicate Placed(lists: set<List>, e: Entry, item: Item)
    reads lists, e
  {
    e.item == item && (e in Nodes(lists) || Linked(e, e))
  }

  ghost predicate BothPlaced(lists: set<List>, item: Item)
    reads lists, item.entry1, item.entry2
  {
    item.entry1 != item.entry2 && Placed(lists, item.entry1, item) && Placed(lists, item.entry2, item)
  }

  ghost predicate AllPlaced(lists: set<List>, items: set<Item>)
    reads lists, Entries(items)
  {
    forall x :: x in items ==> BothPlaced(lists, x)
  }

  /** An entry that stands in a list is the entry of one of its items. */
  lemma OnlyIn(lists: set<List>, l: List, b: Binding, item: Item)
    requires Family(lists) && l in lists && EntryOf(b, item).item == item && item.entry1 != item.entry2
    ensures EntryOf(b, item) in l.nodes <==> l.binding == b && item in l.items
  {
    var e := EntryOf(b, item);
    if e in l.nodes {
      var k: nat :| k < |l.ring| && l.ring[k] == e;
      assert l.items[k - 1] == item;
    }
  }

  /** The lists once an item's entry is out of whichever it stood in. */
  twostate predicate Destructed(item: Item, b: Binding, lists: set<List>)
    reads lists
  {
    && (forall l :: l in lists ==> l.nodes == old(l.nodes) - {EntryOf(b, item)})
    && (forall l :: l in lists ==> l.items == if l.binding == b then Erase(old(l.items), item) else old(l.items))
  }

  /** ListEntry::remove on an entry that stands in `owner`, or on a detached one if there is no owner. */
  method RemoveFrom(ghost owner: List?, b: Binding, item: Item)
    requires owner != null ==> owner.Valid() && owner.binding == b && item in owner.items
    requires owner == null ==> Linked(EntryOf(b, item), EntryOf(b, item))
    modifies if owner == null then {} else {owner}
    modifies EntryOf(b, item)`next, EntryOf(b, item)`prev
    modifies (if owner == null then {} else owner.nodes)`next, (if owner == null then {} else owner.nodes)`prev
    ensures Linked(EntryOf(b, item), EntryOf(b, item))
    ensures owner != null ==>
              && owner.Valid() && owner.items == Erase(old(owner.items), item)
              && owner.nodes == old(owner.nodes) - {EntryOf(b, item)}
  {
    var e := EntryOf(b, item);
    ghost var r, k := [e], 0;
    if owner != null {
      r, k := owner.ring, IndexOf(owner.items, item) + 1;
      assert r[k] == e;
    } else {
      assert LinkedAt(r, 0);
    }
    Remove(e, r, k);
    assert LinkedAt([e], 0);
    if owner != null {
      owner.Forget(k - 1);
    }
  }

  lemma OwnerOf(lists: set<List>, b: Binding, item: Item) returns (owner: List?)
    requires Family(lists) && BothPlaced(lists, item)
    ensures owner != null ==> owner in lists && owner.binding == b && item in owner.items
    ensures owner == null ==> Linked(EntryOf(b, item), EntryOf(b, item))
    ensures forall l :: l in lists && l != owner ==>
              EntryOf(b, item) !in l.nodes && !(l.binding == b && item in l.items)
  {
    forall l | l in lists ensures EntryOf(b, item) in l.nodes <==> l.binding == b && item in l.items {
      OnlyIn(lists, l, b, item);
    }
    owner := null;
    if l :| l in lists && EntryOf(b, item) in l.nodes {
      owner := l;
      forall m | m in lists && m != l ensures EntryOf(b, item) !in m.nodes { assert Apart(l, m); }
    }
  }

  /** The lists keep their shape, and no entry but the item's and those of its list is touched. */
  method DestructEntry(item: Item, b: Binding, ghost lists: set<List>)
    requires Family(lists) && BothPlaced(lists, item)
    modifies lists, Nodes(lists)`next, Nodes(lists)`prev, EntryOf(b, item)`next, EntryOf(b, item)`prev
    ensures Destructed(item, b, lists) && forall l :: l in lists ==> l.Valid()
    ensures Linked(EntryOf(b, item), EntryOf(b, item))
  {
    ghost var e := EntryOf(b, item);
    ghost var owner := OwnerOf(lists, b, item);
    assert owner != null ==> owner.nodes <= Nodes(lists);
    RemoveFrom(owner, b, item);
    forall l | l in lists
      ensures l.Valid() && l.nodes == old(l.nodes) - {e}
      ensures l.items == if l.binding == b then Erase(old(l.items), item) else old(l.items)
    {
      if l != owner && owner != null { assert old(Apart(l, owner)); }
    }
  }

  /** ~ListEntry of one entry of an item, wherever the entry stands. */
  method Destruct(item: Item, b: Binding, ghost lists: set<List>, ghost items: set<Item>)
    requires Family(lists) && AllPlaced(lists, items) && item in items
    modifies lists, Nodes(lists)`next, Nodes(lists)`prev, EntryOf(b, item)`next, EntryOf(b, item)`prev
    ensures Family(lists) && AllPlaced(lists, items)
    ensures Destructed(item, b, lists) && Nodes(lists) == old(Nodes(lists)) - {EntryOf(b, item)}
    ensures Linked(EntryOf(b, item), EntryOf(b, item))
  {
    assert BothPlaced(lists, item);
    ghost var nodes := Nodes(lists);
    DestructEntry(item, b, lists);
    forall l, m | l in lists && m in lists && l != m ensures Apart(l, m) {
      assert old(Apart(l, m));
    }
    forall n ensures n in Nodes(lists) <==> n in nodes && n != EntryOf(b, item) {
      if l :| l in lists && n in old(l.nodes) { assert n != EntryOf(b, item) ==> n in l.nodes; }
    }
    forall x | x in items ensures BothPlaced(lists, x) {
      assert old(BothPlaced(lists, x));
    }
  }

  /** `delete item`: both its entries leave whichever lists they stand in. */
  method Delete(item: Item, ghost lists: set<List>, ghost items: set<Item>)
    requires Family(lists) && AllPlaced(lists, items) && item in items
    modifies lists, Nodes(lists)`next, Nodes(lists)`prev
    modifies item.entry1`next, item.entry1`prev, item.entry2`next, item.entry2`prev
    ensures Family(lists) && AllPlaced(lists, items)
    ensures Nodes(lists) == old(Nodes(lists)) - {item.entry1, item.entry2}
    ensures Linked(item.entry1, item.entry1) && Linked(item.entry2, item.entry2)
    ensures forall l :: l in lists ==> l.items == Erase(old(l.items), item)
  {
    Destruct(item, Second, lists, items);
    Destruct(item, First, lists, items);
    assert BothPlaced(lists, item);
  }

  lemma EraseFirst<T>(s: seq<T>)
    requires s != []
    ensures s == [s[0]] + Erase(s, s[0])
  {
    assert IndexOf(s, s[0]) == 0;
  }

  /** What the destructor of l, one of the lists, needs of its items. */
  ghost predicate Ready(l: List, lists: set<List>, items: set<Item>, entries: set<Entry>)
    reads lists, entries
  {
    && Nodes(lists) <= entries && Entries(items) <= entries
    && Family(lists) && AllPlaced(lists, items) && l in lists && forall x :: x in l.items ==> x in items
  }

  /** `delete front()` in the destructor of l, one of the lists. */
  method DeleteFront(l: List, ghost lists: set<List>, ghost items: set<Item>, ghost entries: set<Entry>)
    returns (item: Item)
    requires Ready(l, lists, items, entries) && l.items != []
    modifies lists, entries`next, entries`prev
    ensures Ready(l, lists, items, entries)
    ensures old(l.items) == [item] + l.items
    ensures forall m :: m in lists ==> m.items == Erase(old(m.items), item)
  {
    var front := l.Front();
    item := front;
    EraseFirst(l.items);
    assert item.entry1 in Entries(items) && item.entry2 in Entries(items);
    Delete(item, lists, items);
  }

  lemma EraseAllFront<T>(s: seq<T>, s': seq<T>, all: seq<T>, x: T, xs: seq<T>)
    requires all == [x] + xs && s' == Erase(s, x)
    ensures EraseAll(s', xs) == EraseAll(s, all)
  {
    assert ([x] + xs)[1..] == xs;
  }

  lemma Carried<T>(deleted: seq<T>, x: T, s: seq<T>)
    ensures deleted + ([x] + s) == (deleted + [x]) + s
  {
  }

  /** One turn of the loop. */
  method DestroyStep(l: List, ghost lists: set<List>, ghost items: set<Item>, ghost entries: set<Entry>,
                     ghost deleted: seq<Item>)
    returns (empty: bool, ghost deleted': seq<Item>)
    requires Ready(l, lists, items, entries) && l.items != []
    modifies lists, entries`next, entries`prev
    ensures Ready(l, lists, items, entries)
    ensures empty <==> l.items == []
    ensures deleted' + l.items == deleted + old(l.items) && |l.items| < |old(l.items)|
    ensures forall m :: m in lists ==> EraseAll(m.items, l.items) == EraseAll(old(m.items), old(l.items))
  {
    var item := DeleteFront(l, lists, items, entries);
    forall m | m in lists ensures EraseAll(m.items, l.items) == EraseAll(old(m.items), old(l.items)) {
      EraseAllFront(old(m.items), m.items, old(l.items), item, l.items);
    }
    deleted' := deleted + [item];
    Carried(deleted, item, l.items);
    empty := l.Empty();
  }

  /**
   ~List of l, one of any number of lists in which its items may also stand: the loop
   `while (!empty()) delete front()`.
   */
  method DestroyList(l: List, ghost lists: set<List>, ghost items: set<Item>, ghost entries: set<Entry>)
    returns (ghost deleted: seq<Item>)
    requires Ready(l, lists, items, entries)
    modifies lists, entries`next, entries`prev
    ensures Ready(l, lists, items, entries)
    ensures l.items == [] && deleted == old(l.items)
    ensures forall m :: m in lists ==> m.items == EraseAll(old(m.items), old(l.items))
  {
    deleted := [];
    ghost var all, ends := l.items, map m | m in lists :: EraseAll(m.items, l.items);
    var empty := l.Empty();
    while !empty
      invariant Ready(l, lists, items, entries)
      invariant empty <==> l.items == []
      invariant deleted + l.items == all
      invariant forall m :: m in lists ==> EraseAll(m.items, l.items) == ends[m]
      decreases |l.items|
    {
      empty, deleted := DestroyStep(l, lists, items, entries, deleted);
    }
  }
}

/**
  SortedList and SortedChainable (support/support-libs/sortedlist.cpp, sortedlist.h): circular doubly
  linked lists with a sentinel, sharing entries.
*/
module SortedList {

  class Node {
    var sortField: int
    var currentList: List?
    var next: Node?
    var prev: Node?

    constructor ()
      ensures sortField == 0 && currentList == null && next == null && prev == null
    {
      sortField, currentList, next, prev := 0, null, null, null;
    }
  }

  // ---------------------------------------------------------------- sequences of entries

  function Succ(i: int, n: int): int {
    if i + 1 < n then i + 1 else 0
  }

  predicate Distinct(c: seq<Node>) {
    forall i, j | 0 <= i < j < |c| :: c[i] != c[j]
  }

  ghost predicate LinkedAt(c: seq<Node>, i: int)
    requires 0 <= i < |c|
    reads c`next, c`prev
  {
    c[i].next == c[Succ(i, |c|)] && c[Succ(i, |c|)].prev == c[i]
  }

  /** The circle: each node points to the next and is pointed back to. */
  ghost predicate Linked(c: seq<Node>)
    reads c`next, c`prev
  {
    |c| > 0 && Distinct(c) && forall i | 0 <= i < |c| :: LinkedAt(c, i)
  }

  function Removed(c: seq<Node>, p: int): seq<Node>
    requires 0 <= p < |c|
  {
    c[..p] + c[p + 1..]
  }

  function Inserted(c: seq<Node>, p: int, e: Node): seq<Node>
    requires 0 <= p <= |c|
  {
    c[..p] + [e] + c[p..]
  }

  lemma ChainDistinct(head: Node, chain: seq<Node>)
    requires Distinct([head] + chain)
    ensures Distinct(chain) && head !in chain
  {
    var c := [head] + chain;
    assert c[0] == head && forall i | 0 <= i < |chain| :: chain[i] == c[i + 1];
  }

  lemma RemovedMembers(c: seq<Node>, p: int)
    requires Distinct(c) && 0 <= p < |c|
    ensures forall x :: x in Removed(c, p) <==> x in c && x != c[p]
  {
    var d := Removed(c, p);
    forall x | x in c && x != c[p]
      ensures x in d
    {
      var i :| 0 <= i < |c| && c[i] == x;
      assert x == d[if i < p then i else i - 1];
    }
  }

  /** The sequence with e taken out, if it is there. */
  function Without(c: seq<Node>, e: Node): seq<Node> {
    if c == [] then [] else if c[0] == e then c[1..] else [c[0]] + Without(c[1..], e)
  }

  lemma {:induction false} WithoutIsRemoved(c: seq<Node>, p: int)
    requires Distinct(c) && 0 <= p < |c|
    ensures Without(c, c[p]) == Removed(c, p)
    decreases |c|
  {
    if p > 0 {
      assert c[1..][p - 1] == c[p];
      WithoutIsRemoved(c[1..], p - 1);
      assert Removed(c, p) == [c[0]] + Removed(c[1..], p - 1);
    } else {
      assert Removed(c, 0) == c[1..];
    }
  }

  lemma {:induction false} WithoutAbsent(c: seq<Node>, e: Node)
    requires e !in c
    ensures Without(c, e) == c
    decreases |c|
  {
    if c != [] {
      WithoutAbsent(c[1..], e);
    }
  }

  /** The pointer part of remove(). */
  method Unlink(e: Node, ghost c: seq<Node>, ghost p: int)
    requires Linked(c) && 0 < p < |c| && c[p] == e && e.next != null && e.prev != null
    modifies e.next`prev, e.prev`next
    ensures Linked(Removed(c, p))
  {
    ghost var n := |c|;
    assert LinkedAt(c, p) && LinkedAt(c, p - 1);
    e.next.prev := e.prev;
    e.prev.next := e.next;
    ghost var d := Removed(c, p);
    forall i | 0 <= i < |d|
      ensures LinkedAt(d, i)
    {
      var k := if i < p then i else i + 1;
      assert old(LinkedAt(c, k));
    }
  }

  /** The pointer part of insertBefore(); `before` is c[p], or the sentinel c[0] to append. */
  method Link(before: Node, e: Node, ghost c: seq<Node>, ghost p: int)
    requires Linked(c) && 0 < p <= |c| && e !in c && before == c[if p == |c| then 0 else p] && before.prev != null
    modifies e`next, e`prev, before`prev, before.prev`next
    ensures Linked(Inserted(c, p, e))
  {
    ghost var d := Inserted(c, p, e);
    assert LinkedAt(c, p - 1);
    e.next := before;
    e.prev := before.prev;
    before.prev.next := e;
    before.prev := e;
    forall i | 0 <= i < |d|
      ensures LinkedAt(d, i)
    {
      if i != p && i != p - 1 {
        var k := if i < p then i else i - 1;
        assert old(LinkedAt(c, k));
      }
    }
  }

  /** Keys never fall along the chain. */
  ghost predicate Sorted(chain: seq<Node>)
    reads chain`sortField
  {
    forall i, j | 0 <= i < j < |chain| :: chain[i].sortField <= chain[j].sortField
  }

  /** The keys along a chain, as a value. */
  ghost function Keys(chain: seq<Node>): (keys: seq<int>)
    reads chain`sortField
    ensures KeyedBy(chain, keys)
  {
    if chain == [] then [] else [chain[0].sortField] + Keys(chain[1..])
  }

  ghost predicate KeyedBy(chain: seq<Node>, keys: seq<int>)
    reads chain`sortField
  {
    |keys| == |chain| && forall i | 0 <= i < |chain| :: chain[i].sortField == keys[i]
  }

  predicate SortedKeys(keys: seq<int>) {
    forall i, j | 0 <= i < j < |keys| :: keys[i] <= keys[j]
  }

  lemma SortedBy(chain: seq<Node>, keys: seq<int>)
    requires KeyedBy(chain, keys)
    ensures Sorted(chain) <==> SortedKeys(keys)
  {
    if SortedKeys(keys) {
      forall i, j | 0 <= i < j < |chain|
        ensures chain[i].sortField <= chain[j].sortField
      {
        assert keys[i] <= keys[j];
      }
    } else {
      var i, j :| 0 <= i < j < |keys| && keys[i] > keys[j];
      assert chain[i].sortField > chain[j].sortField;
    }
  }

  lemma SortedInserted(chain: seq<Node>, p: int, e: Node)
    requires 0 <= p <= |chain| && Sorted(chain)
    requires forall i | 0 <= i < p :: chain[i].sortField <= e.sortField
    requires forall i | p <= i < |chain| :: e.sortField <= chain[i].sortField
    ensures Sorted(Inserted(chain, p, e))
  {
  }

  /** The keys of the chain with an entry put in at its place: sorted. */
  lemma KeysWith(chain: seq<Node>, p: int, e: Node) returns (keys: seq<int>)
    requires 0 <= p <= |chain| && Sorted(chain)
    requires forall i | 0 <= i < p :: chain[i].sortField <= e.sortField
    requires forall i | p <= i < |chain| :: e.sortField <= chain[i].sortField
    ensures KeyedBy(Inserted(chain, p, e), keys) && SortedKeys(keys)
  {
    SortedInserted(chain, p, e);
    keys := Keys(Inserted(chain, p, e));
    SortedBy(Inserted(chain, p, e), keys);
  }

  /** Taking one out keeps a bound on the keys. */
  lemma {:induction false} KeysBelow(c: seq<Node>, e: Node, bound: int)
    requires forall x | x in c :: x.sortField <= bound
    ensures forall x | x in Without(c, e) :: x in c && x.sortField <= bound
    decreases |c|
  {
    if c != [] {
      KeysBelow(c[1..], e, bound);
    }
  }

  lemma InsertedMembers(c: seq<Node>, p: int, e: Node)
    requires 0 <= p <= |c|
    ensures forall x :: x in Inserted(c, p, e) <==> x == e || x in c
  {
    var d := Inserted(c, p, e);
    assert d[p] == e;
    forall x | x in c
      ensures x in d
    {
      var i :| 0 <= i < |c| && c[i] == x;
      assert x == d[if i < p then i else i + 1];
    }
  }

  class List {
    const head: Node
    var numberOfElements: int
    ghost var chain: seq<Node>

    /** The sentinel and the entries. */
    ghost function Circle(): seq<Node>
      reads this
    {
      [head] + chain
    }

    ghost predicate Valid()
      reads this, head, chain
    {
      Shape() && Sorted(chain)
    }

    ghost predicate Shape()
      reads this, head, chain
    {
      && Linked(Circle())
      && head.sortField == 0 && head.currentList == null
      && numberOfElements == |chain|
      && forall x | x in chain :: x.currentList == this
    }

    constructor ()
      ensures Valid() && chain == [] && fresh(head)
    {
      head := new Node();
      numberOfElements := 0;
      chain := [];
      new;
      head.next, head.prev := head, head;
    }

    /** The part of remove() behind its tests. */
    method TakeOut(entry: Node, ghost p: int, ghost others: set<List>)
      requires Valid() && 0 <= p < |chain| && chain[p] == entry && entry.next != null && entry.prev != null
      requires this !in others
      requires forall l | l in others :: l.Valid() && {entry, entry.next, entry.prev} !! (set x | x in l.Circle())
      modifies this, entry`currentList, entry.next`prev, entry.prev`next
      ensures forall l | l in others :: l.Valid()
      ensures Valid() && chain == Removed(old(chain), p)
      ensures entry.currentList == null
    {
      ghost var c := Circle();
      assert c[p + 1] == entry;
      ChainDistinct(head, chain);
      RemovedMembers(chain, p);
      entry.currentList := null;
      Unlink(entry, c, p + 1);
      numberOfElements := numberOfElements - 1;
      chain := Removed(chain, p);
      assert Circle() == Removed(c, p + 1);
    }

    /** An entry of this list has neighbours. */
    lemma Neighbours(p: int)
      requires Valid() && 0 <= p < |chain|
      ensures chain[p].next != null && chain[p].prev != null
      ensures chain[p].next in Circle() && chain[p].prev in Circle()
    {
      var c := Circle();
      assert LinkedAt(c, p + 1) && LinkedAt(c, p);
      assert c[p + 1] == chain[p];
    }

    /** Takes the entry out of this list, if that is the list it is in. */
    method Remove(entry: Node?, ghost lists: set<List>, ghost entries: set<Node>) returns (ok: bool)
      requires World(lists, entries) && this in lists
      requires entry == null || entry == head || entry in entries
      modifies this, head`next, head`prev, chain`next, chain`prev, chain`currentList
      ensures World(lists, entries)
      ensures ok <==> entry != null && old(entry.currentList) == this
      ensures !ok ==> chain == old(chain)
      ensures ok ==> entry.currentList == null && chain == Without(old(chain), entry)
      ensures forall x | x in entries && x != entry :: x.currentList == old(x.currentList)
    {
      if entry == null || entry.currentList != this || entry == head {
        return false;
      }
      assert entry in chain;
      ghost var p :| 0 <= p < |chain| && chain[p] == entry;
      RemoveAt(entry, p, lists, entries);
      return true;
    }

    /** remove() of an entry that is in this list. */
    method RemoveAt(entry: Node, ghost p: int, ghost lists: set<List>, ghost entries: set<Node>)
      requires World(lists, entries) && this in lists && 0 <= p < |chain| && chain[p] == entry
      modifies this, head`next, head`prev, chain`next, chain`prev, chain`currentList
      ensures World(lists, entries)
      ensures entry.currentList == null && chain == Without(old(chain), entry)
      ensures forall x | x in entries && x != entry :: x.currentList == old(x.currentList)
    {
      Neighbours(p);
      OursAlone(entry, entry, lists, entries);
      OursAlone(entry.next, entry.prev, lists, entries);
      WithoutOne(p);
      ghost var others := lists - {this};
      TakeOut(entry, p, others);
      forall l | l in lists
        ensures l.Valid() && forall x | x in l.chain :: x in entries
      {
        assert l == this || l in others;
      }
    }

    lemma WithoutOne(p: int)
      requires Valid() && 0 <= p < |chain|
      ensures Without(chain, chain[p]) == Removed(chain, p)
      ensures forall x :: x in Removed(chain, p) <==> x in chain && x != chain[p]
    {
      ChainDistinct(head, chain);
      WithoutIsRemoved(chain, p);
      RemovedMembers(chain, p);
    }

    /** insertBefore(): `before` is chain[p], or the sentinel at the end. */
    method PutIn(before: Node, newEntry: Node, ghost p: int, ghost keys: seq<int>, ghost others: set<List>)
      requires Shape() && newEntry !in Circle() && 0 <= p <= |chain|
      requires before == (if p == |chain| then head else chain[p]) && before.prev != null
      requires this !in others && KeyedBy(Inserted(chain, p, newEntry), keys)
      requires forall l | l in others :: l.Valid() && {newEntry, before, before.prev} !! (set x | x in l.Circle())
      modifies this, newEntry`next, newEntry`prev, newEntry`currentList, before`prev, before.prev`next
      ensures forall l | l in others :: l.Valid()
      ensures Shape() && chain == Inserted(old(chain), p, newEntry) && newEntry.currentList == this
      ensures KeyedBy(chain, keys)
    {
      ghost var c := Circle();
      InsertedMembers(chain, p, newEntry);
      assert Inserted(c, p + 1, newEntry) == [head] + Inserted(chain, p, newEntry);
      Link(before, newEntry, c, p + 1);
      newEntry.currentList := this;
      numberOfElements := numberOfElements + 1;
      chain := Inserted(chain, p, newEntry);
    }

    /** ... where its key belongs. */
    method PutInSorted(before: Node, newEntry: Node, ghost p: int, ghost others: set<List>)
      requires Valid() && newEntry !in Circle() && 0 <= p <= |chain|
      requires before == (if p == |chain| then head else chain[p]) && before.prev != null
      requires forall i | 0 <= i < p :: chain[i].sortField <= newEntry.sortField
      requires forall i | p <= i < |chain| :: newEntry.sortField <= chain[i].sortField
      requires this !in others
      requires forall l | l in others :: l.Valid() && {newEntry, before, before.prev} !! (set x | x in l.Circle())
      modifies this, newEntry`next, newEntry`prev, newEntry`currentList, before`prev, before.prev`next
      ensures forall l | l in others :: l.Valid()
      ensures Valid() && chain == Inserted(old(chain), p, newEntry) && newEntry.currentList == this
    {
      ghost var keys := KeysWith(chain, p, newEntry);
      PutIn(before, newEntry, p, keys, others);
      SortedBy(chain, keys);
    }

    /** ITERATE_SORTED_LIST of insert(): the first entry with a greater key, or the sentinel. */
    method FindPlace(sortVal: int) returns (iter: Node, ghost p: int)
      requires Valid()
      ensures 0 <= p <= |chain| && iter == if p == |chain| then head else chain[p]
      ensures iter.prev != null && iter.prev in Circle()
      ensures forall i | 0 <= i < p :: chain[i].sortField <= sortVal
      ensures forall i | p <= i < |chain| :: chain[i].sortField > sortVal
    {
      ghost var c := Circle();
      assert LinkedAt(c, 0);
      iter, p := head.next, 0;
      while iter != head && iter.sortField <= sortVal
        invariant 0 <= p <= |chain| && iter == if p == |chain| then head else chain[p]
        invariant forall i | 0 <= i < p :: chain[i].sortField <= sortVal
        decreases |chain| - p
      {
        assert LinkedAt(c, p + 1);
        iter, p := iter.next, p + 1;
      }
      assert LinkedAt(c, p);
    }

    lemma OursAlone(x: Node, y: Node, lists: set<List>, entries: set<Node>)
      requires World(lists, entries) && this in lists && x in Circle() && y in Circle()
      ensures forall l | l in lists && l != this :: x !in l.Circle() && y !in l.Circle()
    {
      forall l | l in lists && l != this
        ensures x !in l.Circle() && y !in l.Circle()
      {
        assert l.Valid() && Valid();
      }
    }

    /** insertBefore() in a world of lists. */
    method InsertBefore(before: Node, newEntry: Node, ghost p: int, ghost lists: set<List>, ghost entries: set<Node>)
      requires World(lists, entries) && this in lists && newEntry in entries && newEntry.currentList == null
      requires 0 <= p <= |chain| && before == if p == |chain| then head else chain[p]
      requires before.prev != null && before.prev in Circle()
      requires forall i | 0 <= i < p :: chain[i].sortField <= newEntry.sortField
      requires forall i | p <= i < |chain| :: newEntry.sortField <= chain[i].sortField
      modifies this, head`next, head`prev, newEntry, chain`next, chain`prev
      ensures World(lists, entries)
      ensures chain == Inserted(old(chain), p, newEntry) && newEntry.currentList == this
      ensures newEntry.sortField == old(newEntry.sortField)
    {
      InsertedMembers(chain, p, newEntry);
      DetachedAbsent(newEntry, lists, entries);
      OursAlone(before, before.prev, lists, entries);
      PutInSorted(before, newEntry, p, lists - {this});
    }

    /** The greatest key; 0, the sentinel's key, when there is none. */
    ghost function LastKey(): int
      reads this, chain`sortField
    {
      if chain == [] then 0 else chain[|chain| - 1].sortField
    }

    lemma Ends()
      requires Valid()
      ensures head.next == if chain == [] then head else chain[0]
      ensures head.prev == if chain == [] then head else chain[|chain| - 1]
      ensures head.prev.sortField == LastKey()
      ensures forall x | x in chain :: x.sortField <= LastKey()
    {
      assert LinkedAt(Circle(), 0) && LinkedAt(Circle(), |chain|);
    }

    /** The last lines of append(), for an entry that is in no list now. */
    method AppendDetached(newEntry: Node, sortVal: int, ghost lists: set<List>, ghost entries: set<Node>)
      requires World(lists, entries) && this in lists && newEntry in entries && newEntry.currentList == null
      requires forall x | x in chain :: x.sortField <= sortVal
      modifies this, head`next, head`prev, newEntry, chain`next, chain`prev
      ensures World(lists, entries)
      ensures chain == old(chain) + [newEntry] && newEntry.currentList == this && newEntry.sortField == sortVal
    {
      SetKey(newEntry, sortVal, lists, entries);
      Ends();
      InsertBefore(head, newEntry, |chain|, lists, entries);
    }

    /** Adds at the end, unless a greater key is there already; the entry leaves the list it was in. */
    method Append(newEntry: Node?, sortVal: int, ghost lists: set<List>, ghost entries: set<Node>) returns (ok: bool)
      requires World(lists, entries) && this in lists
      requires newEntry == null || newEntry == head || newEntry in entries
      modifies lists, entries, Heads(lists)
      ensures World(lists, entries)
      ensures ok <==> newEntry != null && newEntry != head && sortVal >= old(LastKey())
      ensures !ok ==> Same(lists, entries)
      ensures ok ==> OthersSame(newEntry, this, lists, entries)
      ensures ok ==> chain == Without(old(chain), newEntry) + [newEntry]
      ensures ok ==> newEntry.currentList == this && newEntry.sortField == sortVal
    {
      Ends();
      if newEntry == null || newEntry == head || sortVal < head.prev.sortField {
        return false;
      }
      KeysBelow(chain, newEntry, sortVal);
      Detach(newEntry, lists, entries);
      AppendDetached(newEntry, sortVal, lists, entries);
      return true;
    }

    /** Always adds at the end: a key that is too small becomes the last key itself. */
    method AppendForce(newEntry: Node?, sortVal: int, ghost lists: set<List>, ghost entries: set<Node>) returns (ok: bool)
      requires World(lists, entries) && this in lists
      requires newEntry == null || newEntry == head || newEntry in entries
      modifies lists, entries, Heads(lists)
      ensures World(lists, entries)
      ensures ok <==> newEntry != null && newEntry != head
      ensures !ok ==> Same(lists, entries)
      ensures ok ==> OthersSame(newEntry, this, lists, entries)
      ensures ok ==> chain == Without(old(chain), newEntry) + [newEntry] && newEntry.currentList == this
      ensures ok ==> newEntry.sortField == if sortVal < old(LastKey()) then old(LastKey()) else sortVal
    {
      Ends();
      var key := if sortVal < head.prev.sortField then head.prev.sortField else sortVal;
      ok := Append(newEntry, key, lists, entries);
    }

    /**
      Puts the entry behind all keys up to its own, wherever it was before.  Only a negative key put
      into a list without other entries is not stored as given: it becomes 0, the sentinel's key.
    */
    method Insert(newEntry: Node?, sortVal: int, ghost lists: set<List>, ghost entries: set<Node>)
      returns (ok: bool, ghost p: int)
      requires World(lists, entries) && this in lists
      requires newEntry == null || newEntry == head || newEntry in entries
      modifies lists, entries, Heads(lists)
      ensures World(lists, entries)
      ensures ok <==> newEntry != null && newEntry != head
      ensures !ok ==> Same(lists, entries)
      ensures ok ==> OthersSame(newEntry, this, lists, entries)
      ensures ok ==> var others := Without(old(chain), newEntry);
                     && 0 <= p <= |others| && chain == Inserted(others, p, newEntry)
                     && (forall i | 0 <= i < p :: others[i].sortField <= sortVal)
                     && (forall i | p <= i < |others| :: others[i].sortField > sortVal)
                     && newEntry.sortField == if others == [] && sortVal < 0 then 0 else sortVal
      ensures ok ==> newEntry.currentList == this
    {
      if newEntry == null || newEntry == head {
        return false, 0;
      }
      Detach(newEntry, lists, entries);
      SetKey(newEntry, sortVal, lists, entries);
      ok, p := InsertDetached(newEntry, sortVal, lists, entries);
    }

    /** The search loop of insert() and what follows it. */
    method InsertDetached(newEntry: Node, sortVal: int, ghost lists: set<List>, ghost entries: set<Node>)
      returns (ok: bool, ghost p: int)
      requires World(lists, entries) && this in lists
      requires newEntry in entries && newEntry.currentList == null && newEntry.sortField == sortVal
      modifies lists, entries, Heads(lists)
      ensures World(lists, entries) && ok && newEntry.currentList == this
      ensures 0 <= p <= old(|chain|) && chain == Inserted(old(chain), p, newEntry)
      ensures forall i | 0 <= i < p :: old(chain)[i].sortField <= sortVal
      ensures forall i | p <= i < old(|chain|) :: old(chain)[i].sortField > sortVal
      ensures newEntry.sortField == if old(chain) == [] && sortVal < 0 then 0 else sortVal
      ensures forall l | l in lists && l != this :: l.chain == old(l.chain)
      ensures forall x | x in entries && x != newEntry :: x.sortField == old(x.sortField) && x.currentList == old(x.currentList)
    {
      var iter;
      iter, p := FindPlace(sortVal);
      if iter != head {
        InsertBefore(iter, newEntry, p, lists, entries);
        return true, p;
      }
      ok := AppendGreatest(newEntry, sortVal, lists, entries);
    }

    /** appendForce() on an entry that is in no list. */
    method AppendGreatest(newEntry: Node, sortVal: int, ghost lists: set<List>, ghost entries: set<Node>) returns (ok: bool)
      requires World(lists, entries) && this in lists
      requires newEntry in entries && newEntry.currentList == null
      modifies lists, entries, Heads(lists)
      ensures World(lists, entries) && ok && newEntry.currentList == this
      ensures chain == old(chain) + [newEntry]
      ensures newEntry.sortField == if sortVal < old(LastKey()) then old(LastKey()) else sortVal
      ensures forall l | l in lists && l != this :: l.chain == old(l.chain)
      ensures forall x | x in entries && x != newEntry :: x.sortField == old(x.sortField) && x.currentList == old(x.currentList)
    {
      DetachedAbsent(newEntry, lists, entries);
      ok := AppendForce(newEntry, sortVal, lists, entries);
    }

    method Find(sortItem: int) returns (r: Node?)
      requires Valid()
      ensures r == null ==> forall x | x in chain :: x.sortField != sortItem
      ensures r != null ==> exists i :: 0 <= i < |chain| && chain[i] == r && r.sortField == sortItem
                                        && forall k | 0 <= k < i :: chain[k].sortField != sortItem
    {
      ghost var c, p := Circle(), 0;
      assert LinkedAt(c, 0);
      var iter := head.next;
      while iter != head
        invariant 0 <= p <= |chain| && iter == if p == |chain| then head else chain[p]
        invariant forall k | 0 <= k < p :: chain[k].sortField != sortItem
        decreases |chain| - p
      {
        if sortItem == iter.sortField {
          return iter;
        }
        assert LinkedAt(c, p + 1);
        iter, p := iter.next, p + 1;
      }
      return null;
    }

    method GetFirst() returns (r: Node?)
      requires Valid()
      ensures r == if chain == [] then null else chain[0]
    {
      Ends();
      r := if head.next == head then null else head.next;
    }

    /** The entry with the least key, the one that came first among equals. */
    method GetAndRemoveTheFirst(ghost lists: set<List>, ghost entries: set<Node>) returns (entry: Node?)
      requires World(lists, entries) && this in lists
      modifies this, head`next, head`prev, chain`next, chain`prev, chain`currentList
      ensures World(lists, entries)
      ensures old(chain) == [] ==> entry == null && chain == []
      ensures old(chain) != [] ==> entry != null && old(chain) == [entry] + chain && entry.currentList == null
      ensures entry != null ==> forall x | x in chain :: entry.sortField <= x.sortField
      ensures forall x | x in entries && x != entry :: x.currentList == old(x.currentList)
    {
      entry := GetFirst();
      var ok := Remove(entry, lists, entries);
    }
  }

  /** The entries that are in some list. */
  ghost function Listed(entries: set<Node>): set<Node>
    reads entries`currentList
  {
    set x | x in entries && x.currentList != null
  }

  /** No entry changed its key or its list, and no list its entries. */
  twostate predicate Same(lists: set<List>, entries: set<Node>)
    reads lists, entries
  {
    && (forall l | l in lists :: l.chain == old(l.chain))
    && forall x | x in entries :: x.sortField == old(x.sortField) && x.currentList == old(x.currentList)
  }

  /** Nothing but e moved: the other lists have lost e, if they had it, and are otherwise as before. */
  twostate predicate OthersSame(e: Node, target: List, lists: set<List>, entries: set<Node>)
    reads lists, entries
  {
    && (forall l | l in lists && l != target :: l.chain == Without(old(l.chain), e))
    && forall x | x in entries && x != e :: x.sortField == old(x.sortField) && x.currentList == old(x.currentList)
  }

  lemma DetachedAbsent(e: Node, lists: set<List>, entries: set<Node>)
    requires World(lists, entries) && e in entries && e.currentList == null
    ensures forall l | l in lists :: e !in l.Circle() && Without(l.chain, e) == l.chain
  {
    forall l | l in lists
      ensures e !in l.Circle() && Without(l.chain, e) == l.chain
    {
      assert l.Valid();
      WithoutAbsent(l.chain, e);
    }
  }

  /** Out of its list, if it is in one: "else it would damage the other list". */
  method Detach(e: Node, ghost lists: set<List>, ghost entries: set<Node>)
    requires World(lists, entries) && e in entries
    modifies lists, entries, Heads(lists)
    ensures World(lists, entries) && e.currentList == null
    ensures forall l | l in lists :: l.chain == Without(old(l.chain), e)
    ensures forall x | x in entries :: x.sortField == old(x.sortField)
    ensures forall x | x in entries && x != e :: x.currentList == old(x.currentList)
  {
    forall l | l in lists && l != e.currentList
      ensures Without(l.chain, e) == l.chain
    {
      assert l.Valid();
      WithoutAbsent(l.chain, e);
    }
    if e.currentList != null {
      var ok := e.currentList.Remove(e, lists, entries);
    }
  }

  method SetKey(e: Node, sortVal: int, ghost lists: set<List>, ghost entries: set<Node>)
    requires World(lists, entries) && e in entries && e.currentList == null
    modifies e`sortField
    ensures World(lists, entries) && e.sortField == sortVal
  {
    DetachedAbsent(e, lists, entries);
    e.sortField := sortVal;
  }

  /** An entry is in exactly the list it names, or in none. */
  ghost predicate Placed(lists: set<List>, entries: set<Node>)
    reads lists, entries
  {
    forall x | x in entries && x.currentList != null :: x.currentList in lists && x in x.currentList.chain
  }

  ghost predicate Apart(lists: set<List>) {
    forall l, m | l in lists && m in lists && l != m :: l.head != m.head
  }

  ghost function Heads(lists: set<List>): set<Node> {
    set l | l in lists :: l.head
  }

  ghost predicate World(lists: set<List>, entries: set<Node>)
    reads lists, entries, Heads(lists)
  {
    && Apart(lists) && Placed(lists, entries)
    && forall l | l in lists :: l.head !in entries && (forall x | x in l.chain :: x in entries) && l.Valid()
  }

  /** Where every program starts: new lists and entries that are in none. */
  lemma NewWorld(lists: set<List>, entries: set<Node>)
    requires forall l | l in lists :: l.Valid() && l.chain == [] && l.head !in entries
    requires Apart(lists) && forall x | x in entries :: x.currentList == null
    ensures World(lists, entries)
  {
  }

  /** Every entry is in the chain of the list it names and in no other; each list counts its chain. */
  lemma InExactlyOneList(lists: set<List>, entries: set<Node>, l: List, x: Node)
    requires World(lists, entries) && l in lists && x in entries
    ensures x in l.chain <==> x.currentList == l
    ensures l.numberOfElements == |l.chain| && Distinct(l.chain)
  {
    assert l.Valid();
    ChainDistinct(l.head, l.chain);
  }

  // ---------------------------------------------------------------- conservation

  /** The sum of the counters of these lists. */
  ghost function Total(ls: seq<List>): int
    reads ls`numberOfElements
  {
    if ls == [] then 0 else ls[0].numberOfElements + Total(ls[1..])
  }

  /** The entries that name one of these lists. */
  ghost function In(ls: seq<List>, entries: set<Node>): set<Node>
    reads entries`currentList
  {
    set x | x in entries && x.currentList != null && x.currentList in ls
  }

  function Nodes(c: seq<Node>): set<Node> {
    set x | x in c
  }

  lemma {:induction false} CountNodes(c: seq<Node>)
    requires Distinct(c)
    ensures |Nodes(c)| == |c|
    decreases |c|
  {
    if c != [] {
      CountNodes(c[1..]);
      assert c[0] !in c[1..];
      assert Nodes(c) == {c[0]} + Nodes(c[1..]);
    }
  }

  lemma {:induction false} TotalIsIn(ls: seq<List>, lists: set<List>, entries: set<Node>)
    requires World(lists, entries) && forall l | l in ls :: l in lists
    requires forall i, j | 0 <= i < j < |ls| :: ls[i] != ls[j]
    ensures Total(ls) == |In(ls, entries)|
    decreases |ls|
  {
    if ls == [] {
      assert In(ls, entries) == {};
    } else {
      var l, rest := ls[0], ls[1..];
      TotalIsIn(rest, lists, entries);
      assert l.Valid() && l !in rest;
      ChainDistinct(l.head, l.chain);
      CountNodes(l.chain);
      assert In(ls, entries) == Nodes(l.chain) + In(rest, entries);
      assert Nodes(l.chain) !! In(rest, entries);
    }
  }

  /** insert(), append() and appendForce() add their entry to those that are in some list, and only it; a move changes nothing. */
  twostate lemma MoveKeepsListed(e: Node, target: List, lists: set<List>, entries: set<Node>)
    requires OthersSame(e, target, lists, entries) && e in entries && e.currentList != null
    ensures Listed(entries) == old(Listed(entries)) + {e}
  {
  }

  /** The counters of all lists add up to the number of entries that are in some list; so a move conserves the total. */
  lemma TotalIsListed(ls: seq<List>, lists: set<List>, entries: set<Node>)
    requires World(lists, entries) && forall l :: l in lists <==> l in ls
    requires forall i, j | 0 <= i < j < |ls| :: ls[i] != ls[j]
    ensures Total(ls) == |Listed(entries)|
  {
    TotalIsIn(ls, lists, entries);
    assert In(ls, entries) == Listed(entries);
  }
}

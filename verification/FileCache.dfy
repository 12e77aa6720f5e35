/**
  The file cache as it is built: a doubly linked list, a map into its elements and a running
  byte count.  Every method is proved against the recency list of `RecencyList`.
 */
module FileCache {
  import opened Options
  import opened Utf8
  import opened RecencyList

  class Element {
    const value: Entry
    var prev: Element?
    var next: Element?

    constructor (value: Entry)
      ensures this.value == value && prev == null && next == null
    {
      this.value := value;
      prev, next := null, null;
    }
  }

  ghost function Values(nodes: seq<Element>): seq<Entry> {
    seq(|nodes|, i requires 0 <= i < |nodes| => nodes[i].value)
  }

  /** The operations of a doubly linked list that the cache uses. */
  class List {
    var first: Element?
    var last: Element?
    var len: nat
    ghost var nodes: seq<Element>

    ghost predicate Valid()
      reads this, nodes
    {
      && len == |nodes|
      && first == At(nodes, 0)
      && last == At(nodes, |nodes| - 1)
      && (forall i :: 0 <= i < |nodes| ==> LinkedAt(nodes, i))
      && (forall i, j :: 0 <= i < j < |nodes| ==> nodes[i] != nodes[j])
    }

    static ghost function At(nodes: seq<Element>, i: int): Element? {
      if 0 <= i < |nodes| then nodes[i] else null
    }

    static ghost predicate LinkedAt(nodes: seq<Element>, i: int)
      requires 0 <= i < |nodes|
      reads nodes
    {
      nodes[i].prev == At(nodes, i - 1) && nodes[i].next == At(nodes, i + 1)
    }

    constructor ()
      ensures Valid() && nodes == []
    {
      first, last, len, nodes := null, null, 0, [];
    }

    method PushFrontElement(e: Element)
      requires Valid() && e !in nodes
      modifies this, nodes, e
      ensures Valid() && nodes == [e] + old(nodes)
    {
      ghost var was := nodes;
      assert was != [] ==> LinkedAt(was, 0);
      e.prev, e.next := null, first;
      if first != null {
        first.prev := e;
      } else {
        last := e;
      }
      first, len := e, len + 1;
      nodes := [e] + was;
      forall i | 0 <= i < |nodes|
        ensures LinkedAt(nodes, i)
      {
        assert i > 0 ==> old(LinkedAt(was, i - 1));
      }
    }

    method PushFront(value: Entry) returns (e: Element)
      requires Valid()
      modifies this, nodes
      ensures Valid() && fresh(e) && e.value == value && nodes == [e] + old(nodes)
    {
      e := new Element(value);
      PushFrontElement(e);
    }

    method Remove(e: Element, ghost k: nat)
      requires Valid() && k < |nodes| && nodes[k] == e
      modifies this, nodes
      ensures Valid() && nodes == old(nodes)[..k] + old(nodes)[k + 1..]
    {
      ghost var was := nodes;
      assert LinkedAt(was, k) && (k > 0 ==> LinkedAt(was, k - 1)) && (k + 1 < |was| ==> LinkedAt(was, k + 1));
      if e.prev != null { e.prev.next := e.next; } else { first := e.next; }
      if e.next != null { e.next.prev := e.prev; } else { last := e.prev; }
      len := len - 1;
      nodes := was[..k] + was[k + 1..];
      forall i | 0 <= i < |nodes|
        ensures LinkedAt(nodes, i)
      {
        assert old(LinkedAt(was, if i < k then i else i + 1));
      }
    }

    method MoveToFront(e: Element, ghost k: nat)
      requires Valid() && k < |nodes| && nodes[k] == e
      modifies this, nodes
      ensures Valid() && nodes == [e] + (old(nodes)[..k] + old(nodes)[k + 1..])
    {
      Remove(e, k);
      PushFrontElement(e);
    }

    method Init()
      modifies this
      ensures Valid() && nodes == []
    {
      first, last, len, nodes := null, null, 0, [];
    }
  }

  /** The map holds exactly the elements of the list, each under its own path. */
  ghost predicate Indexed(nodes: seq<Element>, items: map<string, Element>) {
    && (forall i :: 0 <= i < |nodes| ==> nodes[i].value.path in items && items[nodes[i].value.path] == nodes[i])
    && (forall p :: p in items ==> items[p] in nodes && items[p].value.path == p)
  }

  ghost function Cut(nodes: seq<Element>, k: nat): seq<Element>
    requires k < |nodes|
  {
    nodes[..k] + nodes[k + 1..]
  }

  ghost predicate NoRepeats(nodes: seq<Element>) { forall i, j :: 0 <= i < j < |nodes| ==> nodes[i] != nodes[j] }

  lemma IndexedDistinct(nodes: seq<Element>, items: map<string, Element>)
    requires Indexed(nodes, items) && NoRepeats(nodes)
    ensures DistinctPaths(Values(nodes))
  {
  }

  lemma IndexedCut(nodes: seq<Element>, items: map<string, Element>, k: nat)
    requires Indexed(nodes, items) && NoRepeats(nodes) && k < |nodes|
    ensures Indexed(Cut(nodes, k), items - {nodes[k].value.path})
  {
    var cut, items' := Cut(nodes, k), items - {nodes[k].value.path};
    forall p | p in items'
      ensures items'[p] in cut && items'[p].value.path == p
    {
      var i :| 0 <= i < |nodes| && nodes[i] == items[p];
      assert cut[if i < k then i else i - 1] == nodes[i];
    }
    forall i | 0 <= i < |cut|
      ensures cut[i].value.path in items' && items'[cut[i].value.path] == cut[i]
    {
      var j := if i < k then i else i + 1;
      assert cut[i] == nodes[j] && nodes[j] != nodes[k];
    }
  }

  lemma IndexedPush(nodes: seq<Element>, items: map<string, Element>, e: Element)
    requires Indexed(nodes, items) && e.value.path !in items
    ensures Indexed([e] + nodes, items[e.value.path := e])
  {
    var all := [e] + nodes;
    assert all[0] == e;
    forall p | p in items
      ensures items[p] in all
    {
      assert items[p] in nodes;
    }
  }

  lemma ValuesCut(nodes: seq<Element>, k: nat)
    requires k < |nodes|
    ensures Values(Cut(nodes, k)) == Values(nodes)[..k] + Values(nodes)[k + 1..]
  {
  }

  lemma TotalSizeCut(es: seq<Entry>, k: nat)
    requires k < |es|
    ensures TotalSize(es[..k] + es[k + 1..]) == TotalSize(es) - es[k].size
  {
    var cut := es[..k] + es[k + 1..];
    TotalSizeSplit(es, k);
    TotalSizeSplit(cut, k);
    assert cut[..k] == es[..k] && cut[k..] == es[k + 1..];
    assert es[k..][1..] == es[k + 1..];
  }

  /** Cutting an element out of the list removes exactly the entry of its path. */
  lemma CutIsWithout(nodes: seq<Element>, items: map<string, Element>, k: nat)
    requires Indexed(nodes, items) && NoRepeats(nodes) && k < |nodes|
    ensures Values(Cut(nodes, k)) == Without(Values(nodes), nodes[k].value.path)
    ensures Find(Values(nodes), nodes[k].value.path) == Some(nodes[k].value)
    ensures TotalSize(Values(Cut(nodes, k))) == TotalSize(Values(nodes)) - nodes[k].value.size
  {
    hide Without, Find, TotalSize, Indexed, DistinctPaths, Cut;
    IndexedDistinct(nodes, items);
    WithoutAt(Values(nodes), k);
    ValuesCut(nodes, k);
    TotalSizeCut(Values(nodes), k);
  }

  /** Moving an element to the front keeps map and byte count in step with the list. */
  lemma MoveIsTouch(nodes: seq<Element>, items: map<string, Element>, k: nat)
    requires Indexed(nodes, items) && NoRepeats(nodes) && k < |nodes|
    ensures Indexed([nodes[k]] + Cut(nodes, k), items)
    ensures Find(Values(nodes), nodes[k].value.path) == Some(nodes[k].value)
    ensures Values([nodes[k]] + Cut(nodes, k)) == Touch(Values(nodes), nodes[k].value.path)
    ensures TotalSize(Values([nodes[k]] + Cut(nodes, k))) == TotalSize(Values(nodes))
  {
    hide Values, Without, Find, TotalSize, Cut;
    var elem := nodes[k];
    var rest := items - {elem.value.path};
    CutIsWithout(nodes, items, k);
    IndexedCut(nodes, items, k);
    IndexedPush(Cut(nodes, k), rest, elem);
    ValuesPush(elem, Cut(nodes, k));
    assert items == rest[elem.value.path := elem];
  }

  lemma AbsentPath(nodes: seq<Element>, items: map<string, Element>, path: string)
    requires Indexed(nodes, items) && path !in items
    ensures Without(Values(nodes), path) == Values(nodes) && Find(Values(nodes), path) == None
  {
    WithoutAbsent(Values(nodes), path);
  }

  lemma TouchAbsent(es: seq<Entry>, path: string)
    requires Find(es, path) == None
    ensures Touch(es, path) == es
  {
  }

  lemma ValuesPush(e: Element, nodes: seq<Element>)
    ensures Values([e] + nodes) == [e.value] + Values(nodes)
    ensures TotalSize(Values([e] + nodes)) == e.value.size + TotalSize(Values(nodes))
  {
    assert Values([e] + nodes) == [e.value] + Values(nodes);
    assert Values([e] + nodes)[1..] == Values(nodes);
  }

  class FileLruCache {
    const maxItems: int
    const maxSize: int
    var curSize: int
    const ll: List
    var items: map<string, Element>
    ghost var Repr: set<object>

    ghost predicate Valid()
      reads this, Repr
    {
      && this in Repr && ll in Repr
      && (forall i :: 0 <= i < |ll.nodes| ==> ll.nodes[i] in Repr)
      && ll.Valid()
      && Indexed(ll.nodes, items)
      && curSize == TotalSize(Contents())
    }

    ghost function Contents(): seq<Entry>
      reads ll
    {
      Values(ll.nodes)
    }

    constructor (maxItems: int, maxSize: int)
      ensures Valid() && fresh(Repr) && Contents() == []
      ensures this.maxItems == maxItems && this.maxSize == maxSize
    {
      this.maxItems, this.maxSize := maxItems, maxSize;
      ll := new List();
      items, curSize := map[], 0;
      new;
      Repr := {this, ll};
    }

    /** A hit moves to the front; nothing else changes. */
    method Get(path: string) returns (r: Option<Entry>)
      requires Valid()
      modifies Repr
      ensures Valid() && Repr == old(Repr)
      ensures r == Find(old(Contents()), path)
      ensures Contents() == Touch(old(Contents()), path)
    {
      hide Values, Without, Find, TotalSize, Touch, List.LinkedAt;
      if path in items {
        var elem := items[path];
        ghost var nodes, was := ll.nodes, items;
        ghost var k :| 0 <= k < |nodes| && nodes[k] == elem;
        MoveIsTouch(nodes, was, k);
        hide Indexed;
        ll.MoveToFront(elem, k);
        return Some(elem.value);
      }
      AbsentPath(ll.nodes, items, path);
      TouchAbsent(Contents(), path);
      return None;
    }

    /** Take one element out of the list, the map and the byte count. */
    method Drop(elem: Element, ghost k: nat)
      requires Valid() && k < |ll.nodes| && ll.nodes[k] == elem
      modifies Repr
      ensures Valid() && Repr == old(Repr) && ll.nodes == Cut(old(ll.nodes), k)
      ensures items == old(items) - {elem.value.path}
      ensures Contents() == Without(old(Contents()), elem.value.path)
    {
      hide Values, Without, Find, TotalSize, List.LinkedAt, Indexed;
      CutIsWithout(ll.nodes, items, k);
      IndexedCut(ll.nodes, items, k);
      curSize := curSize - elem.value.size;
      ll.Remove(elem, k);
      items := items - {elem.value.path};
    }

    method EvictOldest()
      requires Valid()
      modifies Repr
      ensures Valid() && Repr == old(Repr)
      ensures Contents() == Evict(old(Contents()), maxItems, maxSize)
    {
      hide Without, Find, TotalSize, List.LinkedAt, Indexed;
      while curSize > maxSize || ll.len > maxItems
        invariant Valid() && Repr == old(Repr)
        invariant Evict(Contents(), maxItems, maxSize) == old(Evict(Contents(), maxItems, maxSize))
        decreases |ll.nodes|
      {
        var back := ll.last;
        if back == null { break; }
        ghost var before := ll.nodes;
        Drop(back, |before| - 1);
        ValuesCut(before, |before| - 1);
        assert Contents() == Values(before)[..|before| - 1];
      }
    }

    method PushNew(entry: Entry)
      requires Valid() && entry.path !in items
      modifies Repr
      ensures Valid() && fresh(Repr - old(Repr))
      ensures Contents() == [entry] + old(Contents())
    {
      hide Values, TotalSize, List.LinkedAt, Indexed;
      ghost var nodes, was := ll.nodes, items;
      var elem := ll.PushFront(entry);
      IndexedPush(nodes, was, elem);
      ValuesPush(elem, nodes);
      items := items[entry.path := elem];
      curSize, Repr := curSize + entry.size, Repr + {elem};
    }

    /** The new entry goes to the front, then the least recently used ones go until both limits hold. */
    method Put(path: string, data: Bytes, mtime: int)
      requires Valid()
      modifies Repr
      ensures Valid() && fresh(Repr - old(Repr))
      ensures Contents() == RecencyList.Put(old(Contents()), Entry(path, data, mtime, |data|), maxItems, maxSize)
    {
      hide Values, Without, Find, Evict, TotalSize, List.LinkedAt;
      if path in items {
        var elem := items[path];
        ghost var k :| 0 <= k < |ll.nodes| && ll.nodes[k] == elem;
        Drop(elem, k);
      } else {
        AbsentPath(ll.nodes, items, path);
      }
      hide Indexed;
      PushNew(Entry(path, data, mtime, |data|));
      EvictOldest();
    }

    method Clear()
      modifies this, ll
      ensures Valid() && Contents() == [] && Repr == {this, ll}
    {
      ll.Init();
      items, curSize, Repr := map[], 0, {this, ll};
    }
  }
}

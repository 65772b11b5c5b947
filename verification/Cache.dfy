/**
 * DNSCache of cache.go: a map from keys to entries and a recency list on the heap that must
 * agree with each other.  Every method is proved against the sequence model of CacheModel.
 *
 * The mutex makes each method atomic; the clock is a parameter.
 */
module Cache {
  import opened Options
  import opened Dns
  import opened CacheModel
  import opened RecencyList

  /** cacheEntry: the stored bytes, the deadline and the list element that holds the key. */
  datatype CacheEntry = CacheEntry(response: array<byte>, expiresAt: int, element: Element)

  /** The list, the map and the sequence describe the same entries, apart from their bytes. */
  ghost predicate Linked(elements: seq<Element>, items: map<CacheKey, CacheEntry>, contents: Recency) {
    && |elements| == |contents|
    && forall i :: 0 <= i < |contents| ==> LinkedAt(elements[i], items, contents[i])
  }

  ghost predicate LinkedAt(element: Element, items: map<CacheKey, CacheEntry>, e: Entry) {
    && element.key == e.key && e.key in items
    && items[e.key].element == element && items[e.key].expiresAt == e.expiresAt
  }

  lemma LinkedRemove(elements: seq<Element>, items: map<CacheKey, CacheEntry>, contents: Recency, i: nat)
    requires Linked(elements, items, contents) && Distinct(contents) && i < |contents|
    ensures Linked(elements[..i] + elements[i + 1..], items - {contents[i].key}, Without(contents, contents[i].key))
  {
    hide Without, Distinct;
    WithoutAt(contents, i);
    var rest := Without(contents, contents[i].key);
    forall j | 0 <= j < |rest|
      ensures LinkedAt((elements[..i] + elements[i + 1..])[j], items - {contents[i].key}, rest[j])
    {
      assert LinkedAt(elements[if j < i then j else j + 1], items, contents[if j < i then j else j + 1]);
      DistinctAt(contents, i, if j < i then j else j + 1);
    }
  }

  lemma DistinctAt(contents: Recency, i: nat, j: nat)
    requires Distinct(contents) && i < |contents| && j < |contents| && i != j
    ensures contents[i].key != contents[j].key
  {}

  lemma LinkedInsert(elements: seq<Element>, items: map<CacheKey, CacheEntry>, contents: Recency, e: Entry,
                     entry: CacheEntry)
    requires Linked(elements, items, contents) && !HasKey(contents, e.key)
    requires entry.element.key == e.key && entry.expiresAt == e.expiresAt
    ensures Linked([entry.element] + elements, items[e.key := entry], [e] + contents)
  {
  }

  lemma AbsentKey(contents: Recency, k: CacheKey)
    requires !HasKey(contents, k)
    ensures forall e :: e in contents ==> e.key != k
  {}

  lemma LinkedAtIndex(elements: seq<Element>, items: map<CacheKey, CacheEntry>, contents: Recency, i: nat)
    requires Linked(elements, items, contents) && i < |contents|
    ensures |elements| == |contents| && LinkedAt(elements[i], items, contents[i])
  {}

  lemma LinkedMove(elements: seq<Element>, items: map<CacheKey, CacheEntry>, contents: Recency, i: nat)
    requires Linked(elements, items, contents) && Distinct(contents) && i < |contents| == |elements|
    ensures Linked([elements[i]] + (elements[..i] + elements[i + 1..]), items,
                   [contents[i]] + Without(contents, contents[i].key))
  {
    hide Linked, Without, Distinct, HasKey;
    var e := contents[i];
    LinkedAtIndex(elements, items, contents, i);
    LinkedRemove(elements, items, contents, i);
    WithoutRemoves(contents, e.key);
    LinkedInsert(elements[..i] + elements[i + 1..], items - {e.key}, Without(contents, e.key), e, items[e.key]);
    assert (items - {e.key})[e.key := items[e.key]] == items;
  }

  lemma KeysRemove(contents: Recency, e: Entry)
    requires Distinct(contents)
    ensures Keys(Without(contents, e.key)) == Keys(contents) - {e.key}
    ensures Keys([e] + contents) == Keys(contents) + {e.key}
    ensures Keys([e] + Without(contents, e.key)) == Keys(contents) + {e.key}
  {
    WithoutRemoves(contents, e.key);
  }

  /** The map holds exactly the keys of the sequence. */
  lemma Locate(elements: seq<Element>, items: map<CacheKey, CacheEntry>, contents: Recency, k: CacheKey)
    returns (i: nat)
    requires Linked(elements, items, contents) && Distinct(contents) && items.Keys == Keys(contents)
    ensures |elements| == |contents|
    ensures k !in items ==> !HasKey(contents, k) && Lookup(contents, k) == None && Without(contents, k) == contents
    ensures k in items ==>
      && HasKey(contents, k) && i < |contents| && LinkedAt(elements[i], items, contents[i]) && contents[i].key == k
      && Lookup(contents, k) == Some(contents[i])
  {
    i := 0;
    KeysOf(contents, k);
    if k in items {
      i :| 0 <= i < |contents| && contents[i].key == k;
      LookupAt(contents, i);
    } else {
      LookupIsEntry(contents, k);
      WithoutAbsent(contents, k);
    }
  }

  lemma LinkedLast(elements: seq<Element>, items: map<CacheKey, CacheEntry>, contents: Recency)
    requires Linked(elements, items, contents) && Distinct(contents)
    ensures |elements| == |contents|
    ensures contents != [] ==>
      var last := |contents| - 1;
      LinkedAt(elements[last], items, contents[last]) && Without(contents, contents[last].key) == contents[..last]
  {
    if contents != [] {
      var last := |contents| - 1;
      WithoutAt(contents, last);
      hide Distinct, Without;
      assert contents[last + 1..] == [];
    }
  }

  lemma KeepAbsent(l: Recency, k: CacheKey, maxSize: int)
    requires !HasKey(l, k)
    ensures !HasKey(Keep(l, maxSize), k) && |Keep(l, maxSize)| < Effective(maxSize)
  {}

  class DNSCache {
    const maxSize: int
    const unpack: Unpacker
    const order: List
    var items: map<CacheKey, CacheEntry>
    /** The cache as a sequence of entries, most recently used first. */
    ghost var contents: Recency
    ghost var Repr: set<object>

    ghost predicate Valid()
      reads this, order, Repr
    {
      && this in Repr && order in Repr && order.root in Repr
      && (forall e :: e in order.elements ==> e in Repr)
      && (forall k :: k in items ==> items[k].response in Repr)
      && order.Valid()
      && |contents| == |order.elements| <= Effective(maxSize)
      && Linked(order.elements, items, contents) && Distinct(contents) && items.Keys == Keys(contents)
      && forall e :: e in contents ==> Holds(e)
    }

    /** The array kept for the entry holds the entry's bytes. */
    ghost predicate Holds(e: Entry)
      reads this, Repr
    {
      e.key in items && items[e.key].response in Repr && items[e.key].response[..] == e.response
    }

    constructor (maxSize: int, unpack: Unpacker)
      ensures Valid() && fresh(Repr) && contents == []
      ensures this.maxSize == maxSize && this.unpack == unpack
    {
      this.maxSize := maxSize;
      this.unpack := unpack;
      var l := new List();
      order := l;
      items := map[];
      contents := [];
      Repr := {this, l, l.root};
    }

    /** order.Remove followed by delete on the map. */
    method Delete(k: CacheKey)
      requires Valid() && k in items
      modifies this, order, order.root, order.elements
      ensures Valid() && Repr == old(Repr)
      ensures contents == Without(old(contents), k) && items == old(items) - {k}
      ensures forall i :: 0 <= i < |order.elements| ==> order.elements[i] in old(order.elements)
    {
      hide Linked, Distinct, HasKey, Without, Keys, List.Valid, List.Ring;
      ghost var i := Locate(order.elements, items, contents, k);
      LinkedRemove(order.elements, items, contents, i);
      WithoutRemoves(contents, k);
      KeysRemove(contents, contents[i]);
      order.Remove(items[k].element, i);
      items := items - {k};
      contents := Without(contents, k);
      forall e | e in contents ensures Holds(e) { assert old(Holds(e)); }
    }

    method Get(query: seq<byte>, now: int) returns (resp: array?<byte>, ok: bool)
      requires Valid()
      modifies this, order, order.root, order.elements
      ensures Valid() && Repr == old(Repr)
      ensures contents == Step(unpack, old(contents), Op.Get(now, query), maxSize)
      ensures match Reply(unpack, old(contents), Op.Get(now, query))
              case None => resp == null && !ok
              case Some(bytes) => ok && resp != null && fresh(resp) && resp[..] == bytes
    {
      hide Linked, Distinct, HasKey, Without, Lookup, Keys, List.Valid, List.Ring;
      var extracted := ExtractKey(unpack, query);
      if extracted.None? { return null, false; }
      var key := extracted.value;
      ghost var i := Locate(order.elements, items, contents, key);
      if key !in items { return null, false; }
      var entry := items[key];
      assert Holds(contents[i]);
      if now > entry.expiresAt {
        Delete(key);
        return null, false;
      }
      Promote(key, i);
      resp := CopyWithId(entry.response, query);
      return resp, true;
    }

    /** order.MoveToFront on a hit. */
    method Promote(k: CacheKey, ghost i: nat)
      requires Valid() && k in items && HasKey(contents, k)
      requires i < |contents| && contents[i].key == k && order.elements[i] == items[k].element
      modifies this, order, order.root, order.elements
      ensures Valid() && Repr == old(Repr) && items == old(items)
      ensures contents == [old(contents)[i]] + Without(old(contents), k)
    {
      hide Linked, Distinct, HasKey, Without, Keys, List.Valid, List.Ring;
      LinkedMove(order.elements, items, contents, i);
      WithoutRemoves(contents, k);
      HeadFresh(Without(contents, k));
      KeysRemove(contents, contents[i]);
      order.MoveToFront(items[k].element, i);
      contents := [contents[i]] + Without(contents, k);
      assert items.Keys == Keys(contents);
      forall e | e in contents ensures Holds(e) { assert old(Holds(e)); }
    }

    method Put(query: seq<byte>, response: array<byte>, now: int)
      requires Valid()
      modifies this, order, order.root, order.elements
      ensures Valid() && fresh(Repr - old(Repr))
      ensures contents == Step(unpack, old(contents), Op.Put(now, query, response[..]), maxSize)
    {
      hide Linked;
      var extracted := ExtractKey(unpack, query);
      if extracted.None? { return; }
      var key := extracted.value;
      var ttl := ComputeMinTTL(unpack, response[..]);
      if ttl <= 0 { return; }
      Store(key, response, now + ttl as int);
    }

    /** The locked part of Put. */
    method Store(key: CacheKey, response: array<byte>, expiresAt: int)
      requires Valid()
      modifies this, order, order.root, order.elements
      ensures Valid() && fresh(Repr - old(Repr))
      ensures contents == PutState(old(contents), Entry(key, response[..], expiresAt), maxSize)
    {
      hide Linked, Distinct, HasKey, Without, Keep, Keys, List.Valid, List.Ring;
      ghost var i := Locate(order.elements, items, contents, key);
      WithoutRemoves(contents, key);
      if key in items {
        Delete(key);
      }
      Evict();
      var stored := new byte[response.Length](j requires 0 <= j < response.Length reads response => response[j]);
      assert stored[..] == response[..];
      KeepAbsent(Without(old(contents), key), key, maxSize);
      Insert(key, stored, expiresAt);
    }

    /** The eviction loop of Put. */
    method Evict()
      requires Valid()
      modifies this, order, order.root, order.elements
      ensures Valid() && Repr == old(Repr)
      ensures forall i :: 0 <= i < |order.elements| ==> order.elements[i] in old(order.elements)
      ensures contents == Keep(old(contents), maxSize)
    {
      hide Linked, Distinct, HasKey, Without, Keys, List.Valid, List.Ring;
      while order.Len() >= maxSize
        invariant Valid() && Repr == old(Repr)
        invariant forall i :: 0 <= i < |order.elements| ==> order.elements[i] in old(order.elements)
        invariant contents <= old(contents)
        invariant |contents| >= Effective(maxSize) - 1 || contents == old(contents)
        invariant |contents| == |old(contents)| || |old(contents)| >= Effective(maxSize)
        decreases |contents|
      {
        LinkedLast(order.elements, items, contents);
        var back := order.Back();
        if back == null { break; }
        Delete(back.key);
      }
    }

    /** The end of Put: order.PushFront and the new map entry. */
    method Insert(key: CacheKey, stored: array<byte>, expiresAt: int)
      requires Valid() && !HasKey(contents, key) && |contents| < Effective(maxSize)
      modifies this, order, order.root, order.elements
      ensures Valid() && fresh(Repr - old(Repr) - {stored})
      ensures contents == [Entry(key, stored[..], expiresAt)] + old(contents)
    {
      hide Linked, Distinct, HasKey, Keys, List.Valid, List.Ring;
      HeadFresh(contents);
      AbsentKey(contents, key);
      KeysRemove(contents, Entry(key, stored[..], expiresAt));
      var elem := order.PushFront(key);
      LinkedInsert(order.elements[1..], items, contents, Entry(key, stored[..], expiresAt),
                   CacheEntry(stored, expiresAt, elem));
      items := items[key := CacheEntry(stored, expiresAt, elem)];
      contents := [Entry(key, stored[..], expiresAt)] + contents;
      Repr := Repr + {elem, stored};
      forall e | e in contents ensures Holds(e) {
        if e in old(contents) { assert old(Holds(e)); }
      }
    }
  }

  /** make, copy and the two-byte ID rewrite at the end of Get, on a fresh array. */
  method CopyWithId(stored: array<byte>, query: seq<byte>) returns (resp: array<byte>)
    ensures fresh(resp) && resp[..] == Rewrite(stored[..], query)
  {
    resp := new byte[stored.Length](j requires 0 <= j < stored.Length reads stored => stored[j]);
    assert resp[..] == stored[..];
    if |query| >= 2 && resp.Length >= 2 {
      resp[0] := query[0];
      resp[1] := query[1];
      assert resp[..] == query[..2] + stored[..][2..];
    }
  }
}

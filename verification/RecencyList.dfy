/**
 * The doubly linked ring behind Go's container/list, as cache.go uses it: a sentinel root
 * whose `next` is the most recently used element and whose `prev` is the least recent one.
 */
module RecencyList {
  import opened Dns
  import opened Options

  class Element {
    const key: CacheKey
    var prev: Element?
    var next: Element?

    constructor (key: CacheKey)
      ensures this.key == key
    {
      this.key := key;
      prev, next := null, null;
    }
  }

  class List {
    const root: Element
    var len: nat
    /** The elements from front to back; the links are what the code follows. */
    ghost var elements: seq<Element>

    /** The links from the root visit exactly `es`, in both directions. */
    ghost predicate Ring(es: seq<Element>)
      reads root, es
    {
      var n := |es|;
      && root !in es
      && (forall i, j :: 0 <= i < j < n ==> es[i] != es[j])
      && root.next == (if n == 0 then root else es[0])
      && root.prev == (if n == 0 then root else es[n - 1])
      && (forall i {:trigger es[i].prev} :: 0 <= i < n ==> es[i].prev == if i == 0 then root else es[i - 1])
      && (forall i {:trigger es[i].next} :: 0 <= i < n ==> es[i].next == if i == n - 1 then root else es[i + 1])
    }

    ghost predicate Valid()
      reads this, root, elements
    {
      len == |elements| && Ring(elements)
    }

    constructor ()
      ensures Valid() && elements == [] && fresh(root)
    {
      var r := new Element(CacheKey("", 0, 0));
      root := r;
      len := 0;
      elements := [];
      new;
      root.next := root;
      root.prev := root;
    }

    function Len(): (n: nat)
      requires Valid()
      reads this, root, elements
      ensures n == |elements|
    {
      len
    }

    /** Back: the least recently used element, nil for an empty list. */
    method Back() returns (e: Element?)
      requires Valid()
      ensures e == if elements == [] then null else elements[|elements| - 1]
    {
      if len == 0 { return null; }
      e := root.prev;
    }

    /** Makes the neighbours of `e` point past it. */
    method Unlink(e: Element, ghost es: seq<Element>, ghost i: nat)
      requires Ring(es) && i < |es| && es[i] == e
      modifies root, es
      ensures Ring(es[..i] + es[i + 1..])
    {
      e.prev.next := e.next;
      e.next.prev := e.prev;
    }

    /** Links `e` in between the root and the front. */
    method LinkFront(e: Element, ghost es: seq<Element>)
      requires Ring(es) && e !in es && e != root
      modifies root, es, e
      ensures Ring([e] + es)
    {
      e.prev := root;
      e.next := root.next;
      e.prev.next := e;
      e.next.prev := e;
    }

    method PushFront(key: CacheKey) returns (e: Element)
      requires Valid()
      modifies this, root, elements
      ensures Valid() && fresh(e) && e.key == key && elements == [e] + old(elements)
    {
      e := new Element(key);
      LinkFront(e, elements);
      len := len + 1;
      elements := [e] + elements;
    }

    method Remove(e: Element, ghost i: nat)
      requires Valid() && i < |elements| && elements[i] == e
      modifies this, root, elements
      ensures Valid() && elements == old(elements)[..i] + old(elements)[i + 1..]
    {
      Unlink(e, elements, i);
      e.next := null;
      e.prev := null;
      len := len - 1;
      elements := elements[..i] + elements[i + 1..];
    }

    method MoveToFront(e: Element, ghost i: nat)
      requires Valid() && i < |elements| && elements[i] == e
      modifies this, root, elements
      ensures Valid() && elements == [e] + (old(elements)[..i] + old(elements)[i + 1..])
    {
      if root.next == e {
        assert elements == [e] + (elements[..0] + elements[1..]);
        return;
      }
      ghost var rest := elements[..i] + elements[i + 1..];
      Unlink(e, elements, i);
      LinkFront(e, rest);
      elements := [e] + rest;
    }
  }
}

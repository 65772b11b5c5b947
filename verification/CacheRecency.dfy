/**
 * The order of the recency list: it is the order of last use, so what a Put evicts is what was
 * used least recently.
 */
module CacheRecency {
  import opened Options
  import opened Dns
  import opened CacheModel

  /** The key an operation uses: that of a Put that stores, or of a Get that hits. */
  function Uses(unpack: Unpacker, l: Recency, op: Op): Option<CacheKey> {
    match op
    case Get(now, query) =>
      (match ExtractKey(unpack, query)
       case None => None
       case Some(k) => if GetHit(l, k, now).Some? then Some(k) else None)
    case Put(_, _, _) => (match Stored(unpack, op) case None => None case Some(e) => Some(e.key))
  }

  /** The index of the last operation that used the key, -1 if there is none. */
  function LastUse(unpack: Unpacker, ops: seq<Op>, maxSize: int, k: CacheKey): (i: int)
    ensures -1 <= i < |ops|
  {
    if ops == [] then -1
    else
      var before := ops[..|ops| - 1];
      if Uses(unpack, Run(unpack, before, maxSize), ops[|ops| - 1]) == Some(k) then |ops| - 1
      else LastUse(unpack, before, maxSize, k)
  }

  /** Strictly falling: the keys further back were used earlier. */
  ghost predicate Ordered(l: Recency, lastUse: CacheKey -> int) {
    && (forall i, j :: 0 <= i < j < |l| ==> lastUse(l[i].key) > lastUse(l[j].key))
    && (forall i :: 0 <= i < |l| ==> lastUse(l[i].key) >= 0)
  }

  lemma OrderedWithout(l: Recency, k: CacheKey, lastUse: CacheKey -> int)
    requires Ordered(l, lastUse) && Distinct(l)
    ensures Ordered(Without(l, k), lastUse)
  {
    if i :| 0 <= i < |l| && l[i].key == k { WithoutAt(l, i); } else { WithoutAbsent(l, k); }
  }

  lemma OrderedPrefix(l: Recency, n: nat, lastUse: CacheKey -> int)
    requires Ordered(l, lastUse) && n <= |l|
    ensures Ordered(l[..n], lastUse)
  {}

  /** The entry just used comes first; the others keep their last use. */
  lemma OrderedFront(l: Recency, e: Entry, n: nat, before: CacheKey -> int, after: CacheKey -> int)
    requires Ordered(l, before) && !HasKey(l, e.key) && after(e.key) == n
    requires forall k :: k != e.key ==> after(k) == before(k) < n
    ensures Ordered([e] + l, after)
  {
    var t := [e] + l;
    forall i, j | 0 <= i < j < |t| ensures after(t[i].key) > after(t[j].key) {
      assert t[j] == l[j - 1];
      if i > 0 { assert t[i] == l[i - 1]; }
    }
    forall i | 0 <= i < |t| ensures after(t[i].key) >= 0 { if i > 0 { assert t[i] == l[i - 1]; } }
  }

  /** How one operation changes the list: the key it uses, if any, comes first, and the others
      stay in their order. */
  lemma StepKeepsOrder(unpack: Unpacker, l: Recency, op: Op, maxSize: int, n: nat,
                       before: CacheKey -> int, after: CacheKey -> int)
    requires Distinct(l) && Ordered(l, before)
    requires forall k :: before(k) < n && after(k) == if Uses(unpack, l, op) == Some(k) then n else before(k)
    ensures Ordered(Step(unpack, l, op, maxSize), after)
  {
    hide Ordered, Distinct, HasKey, Without;
    SameOrder(l, before, after, Uses(unpack, l, op), n);
    match op
    case Get(now, query) =>
      var key := ExtractKey(unpack, query);
      if key.Some? {
        var k := key.value;
        LookupIsEntry(l, k);
        OrderedWithout(l, k, before);
        WithoutRemoves(l, k);
        if Uses(unpack, l, op) == None {
          SameOrder(Without(l, k), before, after, None, n);
        } else {
          OrderedFront(Without(l, k), Lookup(l, k).value, n, before, after);
        }
      }
    case Put(_, _, _) =>
      var stored := Stored(unpack, op);
      if stored.Some? {
        var e := stored.value;
        OrderedWithout(l, e.key, before);
        WithoutRemoves(l, e.key);
        var others := Without(l, e.key);
        OrderedPrefix(others, |Keep(others, maxSize)|, before);
        assert Keep(others, maxSize) == others[..|Keep(others, maxSize)|];
        KeepHasNot(others, e.key, maxSize);
        OrderedFront(Keep(others, maxSize), e, n, before, after);
      }
  }

  lemma KeepHasNot(l: Recency, k: CacheKey, maxSize: int)
    requires !HasKey(l, k)
    ensures !HasKey(Keep(l, maxSize), k)
  {}

  lemma SameOrder(l: Recency, before: CacheKey -> int, after: CacheKey -> int, used: Option<CacheKey>, n: nat)
    requires Ordered(l, before) && forall k :: after(k) == if used == Some(k) then n else before(k)
    ensures used == None ==> Ordered(l, after)
  {}

  /** List position means recency of use: in every run an entry stands before another exactly
      because its key was used later, and every key in the cache has been used. */
  lemma {:induction false} PositionIsRecency(unpack: Unpacker, ops: seq<Op>, maxSize: int)
    ensures Ordered(Run(unpack, ops, maxSize), k => LastUse(unpack, ops, maxSize, k))
  {
    hide Ordered, Step, Uses;
    if ops == [] {
      EmptyOrdered(k => LastUse(unpack, ops, maxSize, k));
    } else {
      var before, op := ops[..|ops| - 1], ops[|ops| - 1];
      PositionIsRecency(unpack, before, maxSize);
      RunKeepsShape(unpack, before, maxSize);
      StepKeepsOrder(unpack, Run(unpack, before, maxSize), op, maxSize, |before|,
                     k => LastUse(unpack, before, maxSize, k), k => LastUse(unpack, ops, maxSize, k));
    }
  }

  lemma EmptyOrdered(lastUse: CacheKey -> int)
    ensures Ordered([], lastUse)
  {}

  /** Eviction over runs: every key that a Put evicts was last used before every other key that
      it keeps, and it evicts only from a cache that has no room. */
  lemma PutEvictsLeastRecentlyUsed(unpack: Unpacker, ops: seq<Op>, put: Op, maxSize: int,
                                   gone: CacheKey, kept: CacheKey)
    requires put.Put? && Stored(unpack, put).Some?
    requires HasKey(Run(unpack, ops, maxSize), gone) && !HasKey(Run(unpack, ops + [put], maxSize), gone)
    requires HasKey(Run(unpack, ops + [put], maxSize), kept) && kept != Stored(unpack, put).value.key
    ensures LastUse(unpack, ops, maxSize, gone) < LastUse(unpack, ops, maxSize, kept)
    ensures |Run(unpack, ops, maxSize)| == |Run(unpack, ops + [put], maxSize)| == if maxSize < 1 then 1 else maxSize
  {
    hide Ordered, Run;
    var l, e := Run(unpack, ops, maxSize), Stored(unpack, put).value;
    var lastUse := k => LastUse(unpack, ops, maxSize, k);
    PositionIsRecency(unpack, ops, maxSize);
    RunKeepsShape(unpack, ops, maxSize);
    RunSnoc(unpack, ops, put, maxSize);
    OrderedWithout(l, e.key, lastUse);
    Evicted(l, e, maxSize, gone, kept, lastUse);
  }

  lemma Evicted(l: Recency, e: Entry, maxSize: int, gone: CacheKey, kept: CacheKey, lastUse: CacheKey -> int)
    requires Distinct(l) && |l| <= Effective(maxSize) && Ordered(Without(l, e.key), lastUse)
    requires HasKey(l, gone) && !HasKey(PutState(l, e, maxSize), gone)
    requires HasKey(PutState(l, e, maxSize), kept) && kept != e.key
    ensures lastUse(gone) < lastUse(kept)
    ensures |l| == |PutState(l, e, maxSize)| == Effective(maxSize)
  {
    hide Without, HasKey, Distinct;
    WithoutRemoves(l, e.key);
    var others := Without(l, e.key);
    var n := |Keep(others, maxSize)|;
    assert Keep(others, maxSize) == others[..n];
    var a := KeptAt(others, e, n, kept);
    OthersHave(l, e, n, gone);
    var j := GoneAt(others, e, n, gone);
    OrderedAt(others, a, j, lastUse);
  }

  lemma OrderedAt(l: Recency, i: nat, j: nat, lastUse: CacheKey -> int)
    requires Ordered(l, lastUse) && i < j < |l|
    ensures lastUse(l[i].key) > lastUse(l[j].key)
  {}

  lemma OthersHave(l: Recency, e: Entry, n: nat, gone: CacheKey)
    requires Distinct(l) && n <= |Without(l, e.key)|
    requires HasKey(l, gone) && !HasKey([e] + Without(l, e.key)[..n], gone)
    ensures HasKey(Without(l, e.key), gone)
  {
    hide Without, Distinct;
    WithoutRemoves(l, e.key);
    assert ([e] + Without(l, e.key)[..n])[0].key == e.key;
    var i :| 0 <= i < |l| && l[i].key == gone;
    assert l[i] in Without(l, e.key);
  }

  lemma KeptAt(others: Recency, e: Entry, n: nat, kept: CacheKey) returns (a: nat)
    requires n <= |others| && HasKey([e] + others[..n], kept) && kept != e.key
    ensures a < n && others[a].key == kept
  {
    var i :| 0 <= i < |[e] + others[..n]| && ([e] + others[..n])[i].key == kept;
    a := i - 1;
  }

  lemma GoneAt(others: Recency, e: Entry, n: nat, gone: CacheKey) returns (j: nat)
    requires n <= |others| && HasKey(others, gone) && !HasKey([e] + others[..n], gone)
    ensures n <= j < |others| && others[j].key == gone
  {
    j :| 0 <= j < |others| && others[j].key == gone;
    forall i | 0 <= i < n ensures others[i].key != gone {
      assert ([e] + others[..n])[i + 1] == others[i];
    }
  }
}

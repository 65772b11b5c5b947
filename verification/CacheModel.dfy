/**
 * The cache of cache.go as a sequence: entries in recency order, most recent first, each
 * with the bytes it answers with and its deadline.  The heap implementation in Cache.dfy
 * refines this model; the theorems about whole runs are proved here.
 */
module CacheModel {
  import opened Options
  import opened Dns

  datatype Entry = Entry(key: CacheKey, response: seq<byte>, expiresAt: int)

  type Recency = seq<Entry>

  ghost predicate Distinct(l: Recency) {
    forall i, j :: 0 <= i < j < |l| ==> l[i].key != l[j].key
  }

  ghost predicate HasKey(l: Recency, k: CacheKey) {
    exists i :: 0 <= i < |l| && l[i].key == k
  }

  function Lookup(l: Recency, k: CacheKey): Option<Entry> {
    if l == [] then None
    else if l[0].key == k then Some(l[0])
    else Lookup(l[1..], k)
  }

  function Without(l: Recency, k: CacheKey): Recency {
    if l == [] then []
    else if l[0].key == k then Without(l[1..], k)
    else [l[0]] + Without(l[1..], k)
  }

  /** The number of entries the cache holds at most: one even for a capacity of zero or less. */
  function Effective(maxSize: int): nat {
    if maxSize < 1 then 1 else maxSize
  }

  /** What the eviction loop leaves: room for one more entry. */
  function Keep(l: Recency, maxSize: int): Recency {
    if |l| < Effective(maxSize) then l else l[..Effective(maxSize) - 1]
  }

  function Expired(e: Entry, now: int): bool {
    now > e.expiresAt
  }

  function GetState(l: Recency, k: CacheKey, now: int): Recency {
    match Lookup(l, k)
    case None => l
    case Some(e) => if Expired(e, now) then Without(l, k) else [e] + Without(l, k)
  }

  function GetHit(l: Recency, k: CacheKey, now: int): Option<Entry> {
    match Lookup(l, k)
    case None => None
    case Some(e) => if Expired(e, now) then None else Some(e)
  }

  function PutState(l: Recency, e: Entry, maxSize: int): Recency {
    [e] + Keep(Without(l, e.key), maxSize)
  }

  /** The stored bytes with the query's transaction ID (RFC 1035, section 4.1.1). */
  function Rewrite(response: seq<byte>, query: seq<byte>): seq<byte> {
    if |query| >= 2 && |response| >= 2 then query[..2] + response[2..] else response
  }

  // --- operations on raw messages

  datatype Op =
    | Get(now: int, query: seq<byte>)
    | Put(now: int, query: seq<byte>, response: seq<byte>)

  /** The entry a Put stores, if it stores one. */
  function Stored(unpack: Unpacker, op: Op): Option<Entry>
    requires op.Put?
  {
    match ExtractKey(unpack, op.query)
    case None => None
    case Some(k) =>
      var ttl := MinTTL(unpack, op.response);
      if ttl <= 0 then None else Some(Entry(k, op.response, op.now + ttl))
  }

  function Step(unpack: Unpacker, l: Recency, op: Op, maxSize: int): Recency {
    match op
    case Get(now, query) =>
      (match ExtractKey(unpack, query)
       case None => l
       case Some(k) => GetState(l, k, now))
    case Put(_, _, _) =>
      match Stored(unpack, op)
      case None => l
      case Some(e) => PutState(l, e, maxSize)
  }

  function Reply(unpack: Unpacker, l: Recency, op: Op): Option<seq<byte>>
    requires op.Get?
  {
    match ExtractKey(unpack, op.query)
    case None => None
    case Some(k) =>
      match GetHit(l, k, op.now)
      case None => None
      case Some(e) => Some(Rewrite(e.response, op.query))
  }

  /** The recency list after the operations, starting from an empty cache. */
  function Run(unpack: Unpacker, ops: seq<Op>, maxSize: int): Recency {
    if ops == [] then []
    else Step(unpack, Run(unpack, ops[..|ops| - 1], maxSize), ops[|ops| - 1], maxSize)
  }

  // --- basic facts

  lemma {:induction false} LookupIsEntry(l: Recency, k: CacheKey)
    ensures Lookup(l, k).None? <==> !HasKey(l, k)
    ensures Lookup(l, k).Some? ==> Lookup(l, k).value in l && Lookup(l, k).value.key == k
  {
    if l != [] {
      LookupIsEntry(l[1..], k);
      if l[0].key != k {
        if HasKey(l[1..], k) {
          var i :| 0 <= i < |l[1..]| && l[1..][i].key == k;
          assert l[i + 1].key == k;
        }
        if HasKey(l, k) {
          var i :| 0 <= i < |l| && l[i].key == k;
          assert l[1..][i - 1].key == k;
        }
      }
    }
  }

  lemma {:induction false} LookupAt(l: Recency, i: nat)
    requires i < |l| && Distinct(l)
    ensures Lookup(l, l[i].key) == Some(l[i])
  {
    if i > 0 {
      assert l[0].key != l[i].key;
      assert l[1..][i - 1] == l[i];
      LookupAt(l[1..], i - 1);
    }
  }

  lemma {:induction false} WithoutAbsent(l: Recency, k: CacheKey)
    requires !HasKey(l, k)
    ensures Without(l, k) == l
  {
    if l != [] {
      assert l[0].key != k;
      forall i | 0 <= i < |l[1..]| ensures l[1..][i].key != k { assert l[i + 1].key != k; }
      WithoutAbsent(l[1..], k);
    }
  }

  lemma {:induction false} WithoutAt(l: Recency, i: nat)
    requires i < |l| && Distinct(l)
    ensures Without(l, l[i].key) == l[..i] + l[i + 1..]
  {
    if i == 0 {
      forall j | 0 <= j < |l[1..]| ensures l[1..][j].key != l[0].key { assert l[j + 1].key != l[0].key; }
      WithoutAbsent(l[1..], l[0].key);
    } else {
      assert l[0].key != l[i].key;
      assert l[1..][i - 1] == l[i];
      WithoutAt(l[1..], i - 1);
      assert l[..i] + l[i + 1..] == [l[0]] + (l[1..][..i - 1] + l[1..][i..]);
    }
  }

  lemma {:induction false} WithoutMembers(l: Recency, k: CacheKey)
    ensures forall e :: e in Without(l, k) <==> e in l && e.key != k
  {
    if l != [] {
      WithoutMembers(l[1..], k);
      assert l == [l[0]] + l[1..];
    }
  }

  lemma {:induction false} WithoutDistinct(l: Recency, k: CacheKey)
    requires Distinct(l)
    ensures Distinct(Without(l, k))
  {
    if l != [] {
      WithoutDistinct(l[1..], k);
      WithoutMembers(l[1..], k);
      forall i | 0 <= i < |Without(l[1..], k)| ensures Without(l[1..], k)[i].key != l[0].key {
        assert Without(l[1..], k)[i] in l[1..];
      }
    }
  }

  /** Removing a key leaves the other entries in their order: distinct keys, one entry fewer. */
  lemma WithoutRemoves(l: Recency, k: CacheKey)
    requires Distinct(l)
    ensures Distinct(Without(l, k)) && !HasKey(Without(l, k), k)
    ensures forall e :: e in Without(l, k) <==> e in l && e.key != k
    ensures |Without(l, k)| == if HasKey(l, k) then |l| - 1 else |l|
  {
    WithoutMembers(l, k);
    WithoutDistinct(l, k);
    var rest := Without(l, k);
    forall i | 0 <= i < |rest| ensures rest[i].key != k { assert rest[i] in rest; }
    if HasKey(l, k) {
      var i :| 0 <= i < |l| && l[i].key == k;
      WithoutAt(l, i);
    } else {
      WithoutAbsent(l, k);
    }
  }

  function Keys(l: Recency): set<CacheKey> {
    set e | e in l :: e.key
  }

  lemma KeysOf(l: Recency, k: CacheKey)
    ensures k in Keys(l) <==> HasKey(l, k)
  {
    if HasKey(l, k) {
      var i :| 0 <= i < |l| && l[i].key == k;
      assert l[i] in l;
    }
  }

  lemma {:induction false} StepKeepsShape(unpack: Unpacker, l: Recency, op: Op, maxSize: int)
    requires Distinct(l) && |l| <= Effective(maxSize)
    ensures Distinct(Step(unpack, l, op, maxSize)) && |Step(unpack, l, op, maxSize)| <= Effective(maxSize)
  {
    if op.Get? {
      var k := ExtractKey(unpack, op.query);
      if k.Some? {
        LookupIsEntry(l, k.value);
        WithoutRemoves(l, k.value);
        HeadFresh(Without(l, k.value));
      }
    } else if Stored(unpack, op).Some? {
      var e := Stored(unpack, op).value;
      WithoutRemoves(l, e.key);
      HeadFresh(Without(l, e.key));
    }
  }

  lemma HeadFresh(l: Recency)
    ensures forall e: Entry :: Distinct(l) && !HasKey(l, e.key) ==> Distinct([e] + l)
  {}

  /** In every run the keys are distinct and the size stays within max(1, maxSize). */
  lemma {:induction false} RunKeepsShape(unpack: Unpacker, ops: seq<Op>, maxSize: int)
    ensures Distinct(Run(unpack, ops, maxSize)) && |Run(unpack, ops, maxSize)| <= Effective(maxSize)
    ensures |Run(unpack, ops, maxSize)| <= if maxSize < 1 then 1 else maxSize
  {
    if ops != [] {
      RunKeepsShape(unpack, ops[..|ops| - 1], maxSize);
      StepKeepsShape(unpack, Run(unpack, ops[..|ops| - 1], maxSize), ops[|ops| - 1], maxSize);
    }
  }

  /** A Put evicts only least recently used other keys: what is left of the other entries is a
      prefix of them in recency order, nothing is evicted below capacity, and at capacity as
      few as make room for the new entry. */
  lemma PutEvictsLeastRecent(l: Recency, e: Entry, maxSize: int)
    requires Distinct(l) && |l| <= Effective(maxSize)
    ensures var others := Without(l, e.key);
            var after := PutState(l, e, maxSize);
            && after[0] == e && after[1..] <= others
            && |after| == if |others| < Effective(maxSize) then |others| + 1 else Effective(maxSize)
  {
    WithoutRemoves(l, e.key);
  }

  // --- a larger cache includes a smaller one

  /** `s` is a subsequence of `l`: `l` with some entries left out. */
  ghost predicate Sub(s: Recency, l: Recency) {
    s == [] || (l != [] && ((s[0] == l[0] && Sub(s[1..], l[1..])) || Sub(s, l[1..])))
  }

  lemma {:induction false} SubMembers(s: Recency, l: Recency)
    requires Sub(s, l)
    ensures |s| <= |l| && forall e :: e in s ==> e in l
  {
    if s != [] {
      if s[0] == l[0] && Sub(s[1..], l[1..]) {
        SubMembers(s[1..], l[1..]);
        assert s == [s[0]] + s[1..];
      } else {
        SubMembers(s, l[1..]);
      }
    }
  }

  lemma {:induction false} SubSkip(s: Recency, l: Recency, e: Entry)
    requires Sub(s, l)
    ensures Sub(s, [e] + l)
  {
    assert ([e] + l)[1..] == l;
  }

  lemma {:induction false} SubCons(s: Recency, l: Recency, e: Entry)
    requires Sub(s, l)
    ensures Sub([e] + s, [e] + l)
  {
    assert ([e] + l)[1..] == l && ([e] + s)[1..] == s;
  }

  lemma {:induction false} SubWithout(s: Recency, l: Recency, k: CacheKey)
    requires Sub(s, l)
    ensures Sub(Without(s, k), Without(l, k))
  {
    if s != [] {
      if s[0] == l[0] && Sub(s[1..], l[1..]) {
        SubWithout(s[1..], l[1..], k);
        if s[0].key != k { SubCons(Without(s[1..], k), Without(l[1..], k), s[0]); }
      } else {
        SubWithout(s, l[1..], k);
        if l[0].key != k { SubSkip(Without(s, k), Without(l[1..], k), l[0]); }
      }
    }
  }

  /** Cutting the large list no shorter than what it exceeds the small one by keeps the relation. */
  lemma {:induction false} SubCut(s: Recency, l: Recency, a: nat, b: nat)
    requires Sub(s, l) && a <= |s| && b <= |l| && |l| - b <= |s| - a
    ensures Sub(s[..a], l[..b])
  {
    if a > 0 {
      SubMembers(s, l);
      if s[0] == l[0] && Sub(s[1..], l[1..]) {
        SubCut(s[1..], l[1..], a - 1, b - 1);
        assert s[..a] == [s[0]] + s[1..][..a - 1] && l[..b] == [l[0]] + l[1..][..b - 1];
        SubCons(s[1..][..a - 1], l[1..][..b - 1], s[0]);
      } else {
        SubMembers(s, l[1..]);
        SubCut(s, l[1..], a, b - 1);
        assert l[..b] == [l[0]] + l[1..][..b - 1];
        SubSkip(s[..a], l[1..][..b - 1], l[0]);
      }
    }
  }

  lemma {:induction false} SubLookup(s: Recency, l: Recency, k: CacheKey)
    requires Sub(s, l) && Distinct(l) && Lookup(s, k).Some?
    ensures Lookup(l, k) == Lookup(s, k)
  {
    LookupIsEntry(s, k);
    SubMembers(s, l);
    var i :| 0 <= i < |l| && l[i] == Lookup(s, k).value;
    LookupAt(l, i);
  }

  /** The relation between a small cache of capacity n and a large one of capacity m. */
  ghost predicate Included(s: Recency, n: nat, l: Recency, m: nat) {
    Sub(s, l) && Distinct(s) && Distinct(l) && |s| <= n <= m && |l| <= m && |l| - |s| <= m - n
  }

  lemma StepKeepsInclusion(unpack: Unpacker, s: Recency, l: Recency, op: Op, n: int, m: int)
    requires Included(s, Effective(n), l, Effective(m))
    ensures Included(Step(unpack, s, op, n), Effective(n), Step(unpack, l, op, m), Effective(m))
  {
    StepKeepsShape(unpack, s, op, n);
    StepKeepsShape(unpack, l, op, m);
    if op.Get? {
      if ExtractKey(unpack, op.query).Some? {
        GetKeepsInclusion(s, l, ExtractKey(unpack, op.query).value, op.now, n, m);
      }
    } else if Stored(unpack, op).Some? {
      PutKeepsInclusion(s, l, Stored(unpack, op).value, n, m);
    }
  }

  lemma GetKeepsInclusion(s: Recency, l: Recency, k: CacheKey, now: int, n: int, m: int)
    requires Included(s, Effective(n), l, Effective(m))
    ensures Sub(GetState(s, k, now), GetState(l, k, now))
    ensures |GetState(l, k, now)| - |GetState(s, k, now)| <= Effective(m) - Effective(n)
  {
    LookupIsEntry(s, k);
    LookupIsEntry(l, k);
    WithoutRemoves(s, k);
    WithoutRemoves(l, k);
    SubWithout(s, l, k);
    if Lookup(s, k).Some? {
      SubLookup(s, l, k);
      SubCons(Without(s, k), Without(l, k), Lookup(s, k).value);
    } else {
      WithoutAbsent(s, k);
      if Lookup(l, k).Some? { SubSkip(s, Without(l, k), Lookup(l, k).value); }
    }
  }

  lemma PutKeepsInclusion(s: Recency, l: Recency, e: Entry, n: int, m: int)
    requires Included(s, Effective(n), l, Effective(m))
    ensures Sub(PutState(s, e, n), PutState(l, e, m))
    ensures |PutState(l, e, m)| - |PutState(s, e, n)| <= Effective(m) - Effective(n)
  {
    var s1, l1 := Without(s, e.key), Without(l, e.key);
    WithoutRemoves(s, e.key);
    WithoutRemoves(l, e.key);
    SubWithout(s, l, e.key);
    SubMembers(s1, l1);
    if HasKey(s, e.key) {
      var i :| 0 <= i < |s| && s[i].key == e.key;
      SubMembers(s, l);
      assert s[i] in l;
      assert HasKey(l, e.key);
    }
    var s2, l2 := Keep(s1, n), Keep(l1, m);
    SubCut(s1, l1, |s2|, |l2|);
    assert s1[..|s2|] == s2 && l1[..|l2|] == l2;
    SubCons(s2, l2, e);
  }

  /** LRU inclusion with expiry: run the same timed operations on two caches of effective
      capacities N <= M.  The small recency list is always a subsequence of the large one,
      entries included, and the sizes differ by at most M - N. */
  lemma {:induction false} LargerCacheIncludesSmaller(unpack: Unpacker, ops: seq<Op>, n: int, m: int)
    requires Effective(n) <= Effective(m)
    ensures Included(Run(unpack, ops, n), Effective(n), Run(unpack, ops, m), Effective(m))
  {
    if ops != [] {
      LargerCacheIncludesSmaller(unpack, ops[..|ops| - 1], n, m);
      StepKeepsInclusion(unpack, Run(unpack, ops[..|ops| - 1], n), Run(unpack, ops[..|ops| - 1], m),
                         ops[|ops| - 1], n, m);
    }
  }

  /** So a larger cache never misses where a smaller one hits, and answers with the same bytes. */
  lemma LargerCacheHitsWhereSmallerHits(unpack: Unpacker, ops: seq<Op>, get: Op, n: int, m: int)
    requires get.Get? && Effective(n) <= Effective(m)
    requires Reply(unpack, Run(unpack, ops, n), get).Some?
    ensures Reply(unpack, Run(unpack, ops, m), get) == Reply(unpack, Run(unpack, ops, n), get)
  {
    LargerCacheIncludesSmaller(unpack, ops, n, m);
    SubLookup(Run(unpack, ops, n), Run(unpack, ops, m), ExtractKey(unpack, get.query).value);
  }

  // --- transparency: where the bytes of a hit come from

  ghost predicate PutsKey(unpack: Unpacker, op: Op, k: CacheKey) {
    op.Put? && Stored(unpack, op).Some? && Stored(unpack, op).value.key == k
  }

  /** Operation j stored exactly this entry and no later operation stored its key again. */
  ghost predicate LastPut(unpack: Unpacker, ops: seq<Op>, e: Entry, j: nat) {
    && j < |ops| && ops[j].Put? && Stored(unpack, ops[j]) == Some(e)
    && forall i :: j < i < |ops| ==> !PutsKey(unpack, ops[i], e.key)
  }

  lemma {:induction false} EntriesComeFromLastPut(unpack: Unpacker, ops: seq<Op>, maxSize: int)
    ensures forall e :: e in Run(unpack, ops, maxSize) ==> exists j: nat :: LastPut(unpack, ops, e, j)
  {
    hide Step, Distinct, LastPut, PutsKey;
    if ops != [] {
      var before, op := ops[..|ops| - 1], ops[|ops| - 1];
      EntriesComeFromLastPut(unpack, before, maxSize);
      RunKeepsShape(unpack, before, maxSize);
      var l := Run(unpack, before, maxSize);
      forall e | e in Run(unpack, ops, maxSize) ensures exists j: nat :: LastPut(unpack, ops, e, j) {
        if op.Put? && Stored(unpack, op) == Some(e) {
          NewLastPut(unpack, ops, e);
        } else {
          OldEntrySurvives(unpack, l, op, maxSize, e);
          var j: nat :| LastPut(unpack, before, e, j);
          SameLastPut(unpack, ops, e, j);
        }
      }
    }
  }

  lemma NewLastPut(unpack: Unpacker, ops: seq<Op>, e: Entry)
    requires ops != [] && ops[|ops| - 1].Put? && Stored(unpack, ops[|ops| - 1]) == Some(e)
    ensures LastPut(unpack, ops, e, |ops| - 1)
  {}

  lemma SameLastPut(unpack: Unpacker, ops: seq<Op>, e: Entry, j: nat)
    requires ops != [] && LastPut(unpack, ops[..|ops| - 1], e, j) && !PutsKey(unpack, ops[|ops| - 1], e.key)
    ensures LastPut(unpack, ops, e, j)
  {
    hide PutsKey, Stored;
    var before := ops[..|ops| - 1];
    assert ops[j] == before[j];
    forall i | j < i < |ops| ensures !PutsKey(unpack, ops[i], e.key) {
      if i < |before| { assert ops[i] == before[i]; }
    }
  }

  lemma OldEntrySurvives(unpack: Unpacker, l: Recency, op: Op, maxSize: int, e: Entry)
    requires Distinct(l) && e in Step(unpack, l, op, maxSize)
    requires !(op.Put? && Stored(unpack, op) == Some(e))
    ensures e in l && !PutsKey(unpack, op, e.key)
  {
    if op.Get? {
      var k := ExtractKey(unpack, op.query);
      if k.Some? {
        LookupIsEntry(l, k.value);
        WithoutRemoves(l, k.value);
      }
    } else if Stored(unpack, op).Some? {
      WithoutRemoves(l, Stored(unpack, op).value.key);
    }
  }

  /** What a hit at operation `i` owes to operation `j`: an earlier Put for the same key, the
      latest one that stored that key, still within its least TTL, the same bytes except the ID. */
  ghost predicate Explains(unpack: Unpacker, ops: seq<Op>, i: nat, reply: seq<byte>, j: nat) {
    && j < i < |ops| && ops[j].Put? && ops[i].Get?
    && ExtractKey(unpack, ops[j].query).Some?
    && ExtractKey(unpack, ops[j].query) == ExtractKey(unpack, ops[i].query)
    && (forall m :: j < m < i ==> !PutsKey(unpack, ops[m], ExtractKey(unpack, ops[i].query).value))
    && 0 < MinTTL(unpack, ops[j].response)
    && ops[i].now <= ops[j].now + MinTTL(unpack, ops[j].response)
    && IsCopyWithId(reply, ops[j].response, ops[i].query)
  }

  /** The bytes of the response, but with the ID of the query if both have one. */
  ghost predicate IsCopyWithId(reply: seq<byte>, response: seq<byte>, query: seq<byte>) {
    && |reply| == |response|
    && (forall b :: 2 <= b < |reply| ==> reply[b] == response[b])
    && (|reply| >= 2 && |query| >= 2 ==> reply[..2] == query[..2])
    && (|reply| < 2 || |query| < 2 ==> reply == response)
  }

  /** Transparency: every hit of every run is explained by an earlier Put. */
  lemma HitsAreExplained(unpack: Unpacker, ops: seq<Op>, i: nat, maxSize: int)
    requires i < |ops| && ops[i].Get?
    requires Reply(unpack, Run(unpack, ops[..i], maxSize), ops[i]).Some?
    ensures exists j: nat :: Explains(unpack, ops, i, Reply(unpack, Run(unpack, ops[..i], maxSize), ops[i]).value, j)
  {
    var l := Run(unpack, ops[..i], maxSize);
    var k := ExtractKey(unpack, ops[i].query).value;
    var e := GetHit(l, k, ops[i].now).value;
    LookupIsEntry(l, k);
    EntriesComeFromLastPut(unpack, ops[..i], maxSize);
    var j: nat :| LastPut(unpack, ops[..i], e, j);
    assert ops[..i][j] == ops[j];
    forall m | j < m < i ensures !PutsKey(unpack, ops[m], k) { assert ops[..i][m] == ops[m]; }
    assert Explains(unpack, ops, i, Rewrite(e.response, ops[i].query), j);
  }

  // --- and a stored entry is served until it expires or capacity other keys displace it

  /** The operation leaves an entry for `k` in place that is good until `deadline`: it is for a key
      of `others` or for none, or it is a Get for `k` before the deadline. */
  ghost predicate Leaves(unpack: Unpacker, op: Op, k: CacheKey, deadline: int, others: set<CacheKey>) {
    match ExtractKey(unpack, op.query)
    case None => true
    case Some(k') => if k' == k then op.Get? && op.now <= deadline else k' in others
  }

  /** `e` is at position `p` and only keys of `ahead` precede it. */
  ghost predicate At(l: Recency, e: Entry, p: nat, ahead: set<CacheKey>) {
    p < |l| && l[p] == e && forall i :: 0 <= i < p ==> l[i].key in ahead
  }

  lemma {:induction false} DistinctPrefixFits(l: Recency, p: nat, ahead: set<CacheKey>)
    requires Distinct(l) && p <= |l| && forall i :: 0 <= i < p ==> l[i].key in ahead
    ensures p <= |ahead|
  {
    if p > 0 {
      DistinctPrefixFits(l, p - 1, ahead - {l[p - 1].key});
    }
  }

  lemma WithoutKeepsPlace(l: Recency, e: Entry, p: nat, ahead: set<CacheKey>, k: CacheKey) returns (p': nat)
    requires Distinct(l) && At(l, e, p, ahead) && k != e.key
    ensures At(Without(l, k), e, p', ahead - {k}) && p' <= p
  {
    p' := p;
    if HasKey(l, k) {
      var i :| 0 <= i < |l| && l[i].key == k;
      WithoutAt(l, i);
      p' := if i < p then p - 1 else p;
      RemovedKeepsPlace(l, e, p, ahead, i);
    } else {
      WithoutAbsent(l, k);
    }
  }

  lemma RemovedKeepsPlace(l: Recency, e: Entry, p: nat, ahead: set<CacheKey>, i: nat)
    requires Distinct(l) && At(l, e, p, ahead) && i < |l| && l[i].key != e.key
    ensures At(l[..i] + l[i + 1..], e, if i < p then p - 1 else p, ahead - {l[i].key})
  {
    var rest := l[..i] + l[i + 1..];
    forall j | 0 <= j < |rest| ensures rest[j] == l[if j < i then j else j + 1] {}
  }

  lemma GetKeepsPlace(l: Recency, k: CacheKey, now: int, e: Entry, p: nat, others: set<CacheKey>) returns (p': nat)
    requires Distinct(l) && At(l, e, p, others) && k != e.key && k in others
    ensures At(GetState(l, k, now), e, p', others)
  {
    p' := p;
    LookupIsEntry(l, k);
    if Lookup(l, k).Some? {
      var q := WithoutKeepsPlace(l, e, p, others, k);
      p' := if Expired(Lookup(l, k).value, now) then q else q + 1;
    }
  }

  lemma PutKeepsPlace(l: Recency, e': Entry, maxSize: int, e: Entry, p: nat, others: set<CacheKey>) returns (p': nat)
    requires Distinct(l) && At(l, e, p, others) && e'.key != e.key && e'.key in others
    requires |others| < Effective(maxSize)
    ensures At(PutState(l, e', maxSize), e, p', others)
  {
    var k := e'.key;
    var q := WithoutKeepsPlace(l, e, p, others, k);
    WithoutRemoves(l, k);
    DistinctPrefixFits(Without(l, k), q, others - {k});
    p' := q + 1;
  }

  lemma StepKeepsPlace(unpack: Unpacker, l: Recency, op: Op, maxSize: int, e: Entry, p: nat, others: set<CacheKey>)
      returns (p': nat)
    requires Distinct(l) && At(l, e, p, others) && e.key !in others
    requires Leaves(unpack, op, e.key, e.expiresAt, others) && |others| < Effective(maxSize)
    ensures At(Step(unpack, l, op, maxSize), e, p', others)
  {
    p' := p;
    var key := ExtractKey(unpack, op.query);
    if key == Some(e.key) {
      LookupAt(l, p);
      p' := 0;
    } else if key.Some? {
      if op.Get? {
        p' := GetKeepsPlace(l, key.value, op.now, e, p, others);
      } else if Stored(unpack, op).Some? {
        p' := PutKeepsPlace(l, Stored(unpack, op).value, maxSize, e, p, others);
      }
    }
  }

  lemma RunSnoc(unpack: Unpacker, ops: seq<Op>, op: Op, maxSize: int)
    ensures Run(unpack, ops + [op], maxSize) == Step(unpack, Run(unpack, ops, maxSize), op, maxSize)
  {
    assert (ops + [op])[..|ops|] == ops;
  }

  lemma {:induction false} RunKeepsPlace(unpack: Unpacker, ops: seq<Op>, put: Op, later: seq<Op>, maxSize: int,
                                         e: Entry, others: set<CacheKey>) returns (p: nat)
    requires put.Put? && Stored(unpack, put) == Some(e)
    requires e.key !in others && |others| < Effective(maxSize)
    requires forall i :: 0 <= i < |later| ==> Leaves(unpack, later[i], e.key, e.expiresAt, others)
    ensures At(Run(unpack, ops + [put] + later, maxSize), e, p, others)
    decreases |later|
  {
    if later == [] {
      RunSnoc(unpack, ops, put, maxSize);
      assert ops + [put] + later == ops + [put];
      p := 0;
    } else {
      var op, before := later[|later| - 1], later[..|later| - 1];
      var q := RunKeepsPlace(unpack, ops, put, before, maxSize, e, others);
      RunKeepsShape(unpack, ops + [put] + before, maxSize);
      p := StepKeepsPlace(unpack, Run(unpack, ops + [put] + before, maxSize), op, maxSize, e, q, others);
      RunSnoc(unpack, ops + [put] + before, op, maxSize);
      assert ops + [put] + later == (ops + [put] + before) + [op];
    }
  }

  /** A stored response is served: after a Put with a least TTL above zero, a query for its key
      that comes no later than that TTL gets the very response, under its own ID, when since then
      nothing was stored for the key and the operations touched fewer than max(1, maxSize) other
      keys. */
  lemma StoredResponsesAreServed(unpack: Unpacker, ops: seq<Op>, put: Op, later: seq<Op>, get: Op, maxSize: int,
                                 k: CacheKey, others: set<CacheKey>)
    requires put.Put? && ExtractKey(unpack, put.query) == Some(k) && 0 < MinTTL(unpack, put.response)
    requires k !in others && |others| < if maxSize < 1 then 1 else maxSize
    requires var deadline := put.now + MinTTL(unpack, put.response);
             forall i :: 0 <= i < |later| ==> Leaves(unpack, later[i], k, deadline, others)
    requires get.Get? && ExtractKey(unpack, get.query) == Some(k)
    requires get.now <= put.now + MinTTL(unpack, put.response)
    ensures var reply := Reply(unpack, Run(unpack, ops + [put] + later, maxSize), get);
            reply.Some? && IsCopyWithId(reply.value, put.response, get.query)
  {
    var e := Stored(unpack, put).value;
    var p := RunKeepsPlace(unpack, ops, put, later, maxSize, e, others);
    RunKeepsShape(unpack, ops + [put] + later, maxSize);
    LookupAt(Run(unpack, ops + [put] + later, maxSize), p);
  }

  /** What a Put is stored as: under its key, for its least TTL, or not at all without a key or TTL. */
  lemma PutIsStored(unpack: Unpacker, ops: seq<Op>, put: Op, maxSize: int)
    requires put.Put?
    ensures var before, after := Run(unpack, ops, maxSize), Run(unpack, ops + [put], maxSize);
            if ExtractKey(unpack, put.query).None? || MinTTL(unpack, put.response) == 0 then after == before
            else after != [] && after[0].key == ExtractKey(unpack, put.query).value
                 && after[0].response == put.response && after[0].expiresAt == put.now + MinTTL(unpack, put.response)
  {
    MinTTLIsLeast(unpack, put.response);
    RunSnoc(unpack, ops, put, maxSize);
  }

  /** Expired entries are deleted when they are asked for, and nothing else: after a Get no entry
      for its key is past its deadline, and every other entry is as before. */
  lemma GetDeletesWhatExpired(unpack: Unpacker, ops: seq<Op>, get: Op, maxSize: int, e: Entry)
    requires get.Get?
    ensures var before, after := Run(unpack, ops, maxSize), Run(unpack, ops + [get], maxSize);
            e in after <==> e in before && (ExtractKey(unpack, get.query) == Some(e.key) ==> get.now <= e.expiresAt)
  {
    RunSnoc(unpack, ops, get, maxSize);
    RunKeepsShape(unpack, ops, maxSize);
    var l, key := Run(unpack, ops, maxSize), ExtractKey(unpack, get.query);
    if key.Some? {
      LookupIsEntry(l, key.value);
      WithoutRemoves(l, key.value);
      if e in l && e.key == key.value { OnlyEntry(l, e); }
    }
  }

  lemma OnlyEntry(l: Recency, e: Entry)
    requires Distinct(l) && e in l
    ensures Lookup(l, e.key) == Some(e)
  {
    var i :| 0 <= i < |l| && l[i] == e;
    LookupAt(l, i);
  }
}

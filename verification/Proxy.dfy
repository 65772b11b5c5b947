/**
 * UDPProxy.forward and TCPProxy.handle (proxy.go) over the heap cache and the pool, run alone:
 * what one query does to each, and what the client is sent.  Forwarding.dfy has the same program
 * with other goroutines between its steps.
 *
 * Upstream outcomes and the clock are parameters; the random candidates are arbitrary.
 */
module Proxy {
  import opened Options
  import opened Dns
  import opened Cache
  import C = CacheModel
  import P = PoolModel
  import Pool

  const DNS_BUFFER_SIZE: nat := 4096

  datatype Upstream = NoReply | Replied(response: seq<byte>, latency: int)

  /** The pool operations of a query that was not answered from the cache, and its response. */
  datatype Outcome = Outcome(ops: seq<P.Op>, response: Option<seq<byte>>)

  /** How an attempt ends for its resolver. */
  function Mark(r: P.Resolver, u: Upstream): P.Op {
    if u.Replied? then P.Success(r, u.latency) else P.Failure(r)
  }

  function ResponseOf(u: Upstream): Option<seq<byte>> {
    if u.Replied? then Some(u.response) else None
  }

  function Attempted(r: P.Resolver, first: Upstream, retry: P.Resolver, second: Upstream): Outcome {
    var once := [P.Sent(r), Mark(r, first)];
    if first.Replied? || retry == r then Outcome(once, ResponseOf(first))
    else Outcome(once + [P.Sent(retry), Mark(retry, second)], ResponseOf(second))
  }

  /** Sends not yet accounted for by a success or a failure. */
  function InFlight(p: P.Pool, r: P.Resolver): int {
    if r in p.stats then p.stats[r].sent - p.stats[r].ok - p.stats[r].fail else 0
  }

  lemma OneOp(p: P.Pool, op: P.Op, x: P.Resolver)
    requires P.Wf(p) && (op.Sent? || op.Success? || op.Failure?) && op.r in p.stats
    ensures var q := P.Apply(p, op);
            P.Wf(q) && q.stats.Keys == p.stats.Keys && q.resolvers == p.resolvers
            && InFlight(q, x) == InFlight(p, x) + if op.r != x then 0 else if op.Sent? then 1 else -1
  {
    hide P.Wf, P.Derived;
    P.ApplyKeepsWf(p, op);
  }

  /** An attempt: a send and then the mark. */
  lemma AttemptAddsUp(start: P.Pool, ops: seq<P.Op>, r: P.Resolver, u: Upstream)
    requires P.Runs(start, ops) && P.Wf(P.After(start, ops)) && r in P.After(start, ops).stats
    ensures var more := ops + [P.Sent(r), Mark(r, u)];
            P.Runs(start, more)
            && var p, p1, q := P.After(start, ops), P.Apply(P.After(start, ops), P.Sent(r)), P.After(start, more);
               && P.Enabled(p1, Mark(r, u)) && q == P.Apply(p1, Mark(r, u))
               && P.Wf(q) && q.stats.Keys == p.stats.Keys && q.resolvers == p.resolvers
               && forall x :: InFlight(q, x) == InFlight(p, x)
  {
    hide P.Wf, P.Apply, P.Run, InFlight;
    var p, mark := P.After(start, ops), Mark(r, u);
    var p1 := P.Apply(p, P.Sent(r));
    OneOp(p, P.Sent(r), r);
    OneOp(p1, mark, r);
    P.RunExtends(start, ops, P.Sent(r));
    P.RunExtends(start, ops + [P.Sent(r)], mark);
    assert ops + [P.Sent(r)] + [mark] == ops + [P.Sent(r), mark];
    forall x ensures InFlight(P.Apply(p1, mark), x) == InFlight(p, x) {
      OneOp(p, P.Sent(r), x);
      OneOp(p1, mark, x);
    }
  }

  /** Whatever the outcome, a query leaves no resolver with an unaccounted send, and it is
      answered exactly when its last attempt is marked a success. */
  lemma QueryAddsUp(p: P.Pool, r: P.Resolver, first: Upstream, retry: P.Resolver, second: Upstream)
    requires P.Wf(p) && r in p.stats && retry in p.stats
    ensures var o := Attempted(r, first, retry, second);
            && P.Runs(p, o.ops) && P.Wf(P.After(p, o.ops))
            && (forall x :: InFlight(P.After(p, o.ops), x) == InFlight(p, x))
            && (o.response.Some? <==> o.ops[|o.ops| - 1].Success?)
  {
    hide P.Wf, P.Apply, P.Run, InFlight;
    EmptyRun(p);
    var once := [P.Sent(r), Mark(r, first)];
    assert [] + once == once;
    AttemptAddsUp(p, [], r, first);
    AttemptAddsUp(p, once, retry, second);
  }

  /** How an attempt counts: one send, and one success or failure, for its resolver alone. */
  lemma AttemptCounts(start: P.Pool, ops: seq<P.Op>, r: P.Resolver, u: Upstream, x: P.Resolver)
    requires P.Runs(start, ops) && P.Wf(P.After(start, ops)) && r in P.After(start, ops).stats
    requires x in P.After(start, ops).stats
    ensures P.Runs(start, ops + [P.Sent(r), Mark(r, u)])
    ensures var p, q := P.After(start, ops), P.After(start, ops + [P.Sent(r), Mark(r, u)]);
            && x in q.stats
            && q.stats[x].sent == p.stats[x].sent + (if x == r then 1 else 0)
            && q.stats[x].ok == p.stats[x].ok + (if x == r && u.Replied? then 1 else 0)
            && q.stats[x].fail == p.stats[x].fail + (if x == r && u.NoReply? then 1 else 0)
  {
    hide P.Wf, P.Apply, P.Run;
    AttemptAddsUp(start, ops, r, u);
    var p := P.After(start, ops);
    var p1 := P.Apply(p, P.Sent(r));
    OneOp(p, P.Sent(r), x);
    OneOp(p1, Mark(r, u), x);
    P.CountersAfter(p, P.Sent(r), x);
    P.CountersAfter(p1, Mark(r, u), x);
  }

  /** The answer is the first upstream's; if that fails and another resolver is drawn, the
      second's; and exactly the attempts made are counted, each as it ended. */
  lemma QueryCounts(p: P.Pool, r: P.Resolver, first: Upstream, retry: P.Resolver, second: Upstream, x: P.Resolver)
    requires P.Wf(p) && r in p.stats && retry in p.stats && x in p.stats
    ensures var o, again := Attempted(r, first, retry, second), first.NoReply? && retry != r;
            && o.response == (if first.Replied? then Some(first.response)
                              else if again && second.Replied? then Some(second.response) else None)
            && P.Runs(p, o.ops) && x in P.After(p, o.ops).stats
            && var c, d := p.stats[x], P.After(p, o.ops).stats[x];
               && d.sent == c.sent + (if x == r then 1 else 0) + (if again && x == retry then 1 else 0)
               && d.ok == c.ok + (if x == r && first.Replied? then 1 else 0)
                               + (if again && x == retry && second.Replied? then 1 else 0)
               && d.fail == c.fail + (if x == r && first.NoReply? then 1 else 0)
                                   + (if again && x == retry && second.NoReply? then 1 else 0)
  {
    hide P.Wf, P.Apply, P.Run;
    EmptyRun(p);
    var once := [P.Sent(r), Mark(r, first)];
    assert [] + once == once;
    AttemptAddsUp(p, [], r, first);
    AttemptCounts(p, [], r, first, x);
    AttemptCounts(p, once, retry, second, x);
  }

  lemma EmptyRun(p: P.Pool)
    ensures P.Runs(p, []) && P.After(p, []) == p
  {}

  // ---- One query ----

  /** The state a query reads and changes; `cache` is None when caching is off. */
  datatype Service = Service(pool: P.Pool, cache: Option<C.Recency>)

  /** What the surroundings decide: the clock at Get and at Put, and what upstreams do. */
  datatype Conditions = Conditions(asked: int, first: Upstream, second: Upstream, stored: int)

  function Cached(unpack: Unpacker, cache: Option<C.Recency>, data: seq<byte>, asked: int): Option<seq<byte>> {
    if cache.None? then None else C.Reply(unpack, cache.value, C.Get(asked, data))
  }

  function CacheStep(unpack: Unpacker, maxSize: int, cache: Option<C.Recency>, op: C.Op): Option<C.Recency> {
    if cache.None? then None else Some(C.Step(unpack, cache.value, op, maxSize))
  }

  ghost predicate Ready(s: Service, r: P.Resolver, retry: P.Resolver) {
    P.Wf(s.pool) && r in s.pool.stats && retry in s.pool.stats
  }

  /** `r` is from the healthy list, and so is `retry` once the first attempt has failed. */
  ghost predicate Offered(p: P.Pool, first: Upstream, r: P.Resolver, retry: P.Resolver) {
    && P.Wf(p) && r in p.healthyCache && r in p.stats && retry in p.stats
    && (first.NoReply? ==> P.Runs(p, [P.Sent(r), P.Failure(r)])
                           && retry in P.After(p, [P.Sent(r), P.Failure(r)]).healthyCache)
  }

  /** The service after the query, and the reply if there is one. */
  ghost function Served(unpack: Unpacker, maxSize: int, s: Service, data: seq<byte>, c: Conditions,
                        r: P.Resolver, retry: P.Resolver): (Service, Option<seq<byte>>)
    requires Ready(s, r, retry)
  {
    var looked := CacheStep(unpack, maxSize, s.cache, C.Get(c.asked, data));
    var hit := Cached(unpack, s.cache, data, c.asked);
    if hit.Some? then (Service(s.pool, looked), hit)
    else
      QueryAddsUp(s.pool, r, c.first, retry, c.second);
      var o := Attempted(r, c.first, retry, c.second);
      (Service(P.After(s.pool, o.ops),
               if o.response.None? then looked
               else CacheStep(unpack, maxSize, looked, C.Put(c.stored, data, o.response.value))),
       o.response)
  }

  /** Asking again: once a query was answered by an upstream with a response that has a TTL, the
      same question gets the same bytes under its own ID until that TTL is over, and the pool is
      not touched. */
  lemma SecondQueryIsCached(unpack: Unpacker, maxSize: int, s: Service, data: seq<byte>, c: Conditions,
                            r: P.Resolver, retry: P.Resolver, again: seq<byte>, c': Conditions,
                            r': P.Resolver, retry': P.Resolver)
    requires Ready(s, r, retry) && s.cache.Some? && Cached(unpack, s.cache, data, c.asked).None?
    requires var (after, reply) := Served(unpack, maxSize, s, data, c, r, retry);
             && reply.Some? && Ready(after, r', retry')
             && 0 < MinTTL(unpack, reply.value) && c'.asked <= c.stored + MinTTL(unpack, reply.value)
    requires ExtractKey(unpack, data).Some? && ExtractKey(unpack, again) == ExtractKey(unpack, data)
    ensures var (after, reply) := Served(unpack, maxSize, s, data, c, r, retry);
            var (last, reply') := Served(unpack, maxSize, after, again, c', r', retry');
            last.pool == after.pool && reply'.Some? && C.IsCopyWithId(reply'.value, reply.value, again)
  {
    hide P.Wf, P.Apply, P.Run;
    var (after, reply) := Served(unpack, maxSize, s, data, c, r, retry);
    var e := C.Stored(unpack, C.Put(c.stored, data, reply.value)).value;
    assert after.cache.value[0] == e;
  }

  // ---- TCP framing, section 4.2.2 of RFC 1035 ----

  /** The two-byte length that is written: longer messages wrap round. */
  function LengthPrefix(n: nat): seq<byte> {
    [(n / 256 % 256) as byte, (n % 256) as byte]
  }

  function Framed(message: seq<byte>): seq<byte> {
    LengthPrefix(|message|) + message
  }

  /** What a reader of the stream takes as the first message, and the bytes after it. */
  function Unframed(stream: seq<byte>): Option<(seq<byte>, seq<byte>)> {
    if |stream| < 2 then None
    else
      var n := stream[0] as int * 256 + stream[1] as int;
      if |stream| < 2 + n then None else Some((stream[2..2 + n], stream[2 + n..]))
  }

  /** A framed reply is read back exactly when it fits the two-byte length. */
  lemma FramedReadsBack(message: seq<byte>, rest: seq<byte>)
    ensures Unframed(Framed(message) + rest) == Some((message, rest)) <==> |message| < 0x1_0000
  {
    var n := |message|;
    var stream := Framed(message) + rest;
    var m := stream[0] as int * 256 + stream[1] as int;
    assert m == n % 0x1_0000;
    if n < 0x1_0000 {
      assert stream[2..2 + n] == message && stream[2 + n..] == rest;
    } else if |stream| >= 2 + m {
      assert |stream[2..2 + m]| == m;
    }
  }

  /** The length goes first, in network byte order, and then the message. */
  lemma FramedLayout(message: seq<byte>)
    requires |message| < 0x1_0000
    ensures var f := Framed(message);
            |f| == |message| + 2 && f[0] as int * 256 + f[1] as int == |message| && f[2..] == message
  {}

  /** A stream holds a message exactly if it begins with a length and that many bytes. */
  lemma UnframedExactly(stream: seq<byte>, message: seq<byte>, rest: seq<byte>)
    ensures Unframed(stream) == Some((message, rest)) <==>
            && |stream| >= 2 && |message| == stream[0] as int * 256 + stream[1] as int
            && stream == stream[..2] + message + rest
  {
    if |stream| >= 2 {
      var n := stream[0] as int * 256 + stream[1] as int;
      if |stream| >= 2 + n { assert stream == stream[..2] + stream[2..2 + n] + stream[2 + n..]; }
      if stream == stream[..2] + message + rest && |message| == n {
        assert stream[2..2 + n] == message && stream[2 + n..] == rest;
      }
    }
  }

  // ---- The proxies ----

  /** The fields UDPProxy and TCPProxy have in common. */
  class Forwarder {
    const pool: Pool.ResolverPool
    const cache: DNSCache?

    ghost predicate Valid()
      reads this, pool, cache, if cache == null then {} else {cache.order} + cache.Repr
    {
      && P.Wf(pool.State()) && pool.resolvers != []
      && (cache != null ==> cache.Valid() && pool !in cache.Repr)
    }

    ghost function Value(): Service
      reads this, pool, cache
    {
      Service(pool.State(), if cache == null then None else Some(cache.contents))
    }

    ghost function Unpack(): Unpacker {
      if cache == null then (_ => None) else cache.unpack
    }

    ghost function MaxSize(): int {
      if cache == null then 0 else cache.maxSize
    }

    constructor (pool: Pool.ResolverPool, cache: DNSCache?)
      requires P.Wf(pool.State()) && pool.resolvers != []
      requires cache != null ==> cache.Valid() && pool !in cache.Repr
      ensures Valid() && this.pool == pool && this.cache == cache
    {
      this.pool := pool;
      this.cache := cache;
    }

    /** GetNext with three arbitrary candidates. */
    method Pick() returns (r: P.Resolver)
      requires P.Wf(pool.State()) && pool.resolvers != []
      ensures r in pool.healthyCache && r in pool.stats
      ensures (exists x :: x in pool.resolvers && P.IsHealthy(pool.State(), x)) ==> P.IsHealthy(pool.State(), r)
    {
      P.CacheHasStats(pool.State());
      var n := |pool.healthyCache|;
      var i: nat :| i < n;
      var j: nat :| j < n;
      var k: nat :| k < n;
      r := pool.GetNext([i, j, k], 0);
    }

    method Attempt(r: P.Resolver, u: Upstream)
      requires P.Wf(pool.State()) && r in pool.stats
      modifies pool
      ensures P.Runs(old(pool.State()), [P.Sent(r), Mark(r, u)])
      ensures pool.State() == P.After(old(pool.State()), [P.Sent(r), Mark(r, u)])
    {
      hide P.Wf, P.Apply, P.Run, InFlight;
      ghost var start := pool.State();
      EmptyRun(start);
      AttemptAddsUp(start, [], r, u);
      assert [] + [P.Sent(r), Mark(r, u)] == [P.Sent(r), Mark(r, u)];
      pool.MarkSent(r);
      if u.Replied? {
        pool.MarkSuccessWithLatency(r, u.latency);
      } else {
        var _ := pool.MarkFailure(r);
      }
    }

    /** The attempt and the retry, which goes to another resolver or is not made. */
    method Ask(first: Upstream, second: Upstream)
      returns (response: Option<seq<byte>>, ghost r: P.Resolver, ghost retry: P.Resolver)
      requires P.Wf(pool.State()) && pool.resolvers != []
      modifies pool
      ensures Offered(old(pool.State()), first, r, retry)
      ensures (exists x :: x in old(pool.resolvers) && P.IsHealthy(old(pool.State()), x)) ==>
                P.IsHealthy(old(pool.State()), r)
      ensures P.Runs(old(pool.State()), Attempted(r, first, retry, second).ops)
      ensures pool.State() == P.After(old(pool.State()), Attempted(r, first, retry, second).ops)
      ensures P.Wf(pool.State()) && pool.resolvers == old(pool.resolvers)
      ensures response == Attempted(r, first, retry, second).response
    {
      hide P.Wf, P.Apply, P.Run, InFlight;
      ghost var start := pool.State();
      var resolver := Pick();
      r, retry := resolver, resolver;
      ghost var once := [P.Sent(r), Mark(r, first)];
      EmptyRun(start);
      AttemptAddsUp(start, [], r, first);
      assert [] + once == once;
      Attempt(resolver, first);
      if first.Replied? { return Some(first.response), r, retry; }
      var again := Pick();
      retry := again;
      if again == resolver { return None, r, retry; }
      AttemptAddsUp(start, once, again, second);
      Attempt(again, second);
      RunsCompose(start, once, [P.Sent(again), Mark(again, second)]);
      response := ResponseOf(second);
    }

    /** The body that forward and handle share, from the message to the reply. */
    method Forward(data: seq<byte>, c: Conditions)
      returns (reply: Option<seq<byte>>, ghost r: P.Resolver, ghost retry: P.Resolver)
      requires Valid()
      modifies pool, if cache == null then {} else cache.Repr
      ensures Valid() && Ready(old(Value()), r, retry)
      ensures Cached(Unpack(), old(Value()).cache, data, c.asked).None? ==>
                Offered(old(pool.State()), c.first, r, retry)
      ensures (Value(), reply) == Served(Unpack(), MaxSize(), old(Value()), data, c, r, retry)
    {
      hide P.Wf, P.Apply, P.Run, C.Step, C.Reply, Attempted;
      P.CacheHasStats(pool.State());
      r, retry := pool.healthyCache[0], pool.healthyCache[0];
      if cache != null {
        var resp, ok := cache.Get(data, c.asked);
        if ok { return Some(resp[..]), r, retry; }
      }
      reply, r, retry := Ask(c.first, c.second);
      QueryAddsUp(old(pool.State()), r, c.first, retry, c.second);
      if reply.Some? && cache != null {
        Store(data, reply.value, c.stored);
      }
    }

    method Store(data: seq<byte>, bytes: seq<byte>, now: int)
      requires Valid() && cache != null
      modifies cache, cache.order, cache.order.root, cache.order.elements
      ensures Valid()
      ensures cache.contents == C.Step(cache.unpack, old(cache.contents), C.Put(now, data, bytes), cache.maxSize)
    {
      hide P.Wf, C.Step, DNSCache.Valid;
      var response := new byte[|bytes|](i requires 0 <= i < |bytes| => bytes[i]);
      assert response[..] == bytes;
      cache.Put(data, response, now);
    }

    /** handle: reads one framed message from the connection and writes the framed reply. */
    method Handle(stream: seq<byte>, c: Conditions)
      returns (written: seq<byte>, ghost r: P.Resolver, ghost retry: P.Resolver)
      requires Valid()
      modifies pool, if cache == null then {} else cache.Repr
      ensures Valid()
      ensures match Unframed(stream)
              case None => written == [] && Value() == old(Value())
              case Some((data, _)) =>
                if data == [] || |data| > 4096 then written == [] && Value() == old(Value())
                else
                  && Ready(old(Value()), r, retry)
                  && var (after, reply) := Served(Unpack(), MaxSize(), old(Value()), data, c, r, retry);
                     Value() == after && written == if reply.Some? then Framed(reply.value) else []
    {
      hide P.Wf, P.Apply, P.Run, C.Step, C.Reply, Attempted, Served, DNSCache.Valid;
      P.CacheHasStats(pool.State());
      r, retry, written := pool.healthyCache[0], pool.healthyCache[0], [];
      if |stream| < 2 { return; }
      var msgLen := stream[0] as int * 256 + stream[1] as int;
      if msgLen == 0 || msgLen > DNS_BUFFER_SIZE { return; }
      if |stream| < 2 + msgLen { return; }
      var reply;
      reply, r, retry := Forward(stream[2..2 + msgLen], c);
      if reply.Some? { written := LengthPrefix(|reply.value|) + reply.value; }
    }
  }

  lemma {:induction false} RunsCompose(start: P.Pool, ops: seq<P.Op>, more: seq<P.Op>)
    requires P.Runs(start, ops) && P.Runs(P.After(start, ops), more)
    ensures P.Runs(start, ops + more) && P.After(start, ops + more) == P.After(P.After(start, ops), more)
    decreases |more|
  {
    if more == [] {
      assert ops + more == ops;
    } else {
      RunsCompose(start, ops, more[..|more| - 1]);
      assert (ops + more)[..|ops + more| - 1] == ops + more[..|more| - 1];
    }
  }
}

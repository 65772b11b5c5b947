/**
 * The two accounts of a query agree: what Proxy.dfy says the method can do is exactly what the
 * thread of Forwarding.dfy can do when no other thread gets a turn.
 */
module SingleQuery {
  import opened Options
  import opened Dns
  import opened Forwarding
  import C = CacheModel
  import P = PoolModel
  import Pool
  import Proxy

  type FState = Forwarding.State

  lemma {:induction false} RunConcat(unpack: Unpacker, s: FState, a: seq<Action>, t: FState, b: seq<Action>, u: FState)
    requires Run(unpack, s, a, t) && Run(unpack, t, b, u)
    ensures Run(unpack, s, a + b, u)
    decreases |a|
  {
    if a == [] {
      assert a + b == b;
    } else {
      RunConcat(unpack, Forwarding.Apply(unpack, s, a[0]), a[1..], t, b, u);
      assert (a + b)[1..] == a[1..] + b;
    }
  }

  lemma RunThen(unpack: Unpacker, s: FState, acts: seq<Action>, t: FState, a: Action)
    requires Run(unpack, s, acts, t) && Forwarding.Enabled(t, a)
    ensures Run(unpack, s, acts + [a], Forwarding.Apply(unpack, t, a))
  {
    assert [a][1..] == [];
    RunConcat(unpack, s, acts, t, [a], Forwarding.Apply(unpack, t, a));
  }

  /** A step of the thread `t`, or time passing. */
  predicate Own(a: Action, t: nat) {
    a.Tick? || (!a.Arrive? && !a.Environment? && a.t == t)
  }

  ghost predicate Solo(acts: seq<Action>, t: nat) {
    forall i :: 0 <= i < |acts| ==> Own(acts[i], t)
  }

  // --- GetNext

  /** One turn of the candidate loop that draws position `i` again. */
  lemma Turn(unpack: Unpacker, s: FState, t: nat, query: Message, search: Search, i: nat)
    returns (acts: seq<Action>, next: Search)
    requires t < |s.threads| && !s.crashed && search.left > 0 && i < |search.snapshot|
    requires search.snapshot[i] in s.pool.stats
    requires search.best.None? || search.best.value.0 == search.snapshot[i]
    ensures next.best.Some? && next.best.value.0 == search.snapshot[i] && Solo(acts, t)
    ensures next.(best := search.best, drawn := search.drawn) == search.(left := search.left - 1)
    ensures Run(unpack, Goto(s, t, Searching(query, search)), acts, Goto(s, t, Searching(query, next)))
  {
    hide Run;
    var r := search.snapshot[i];
    var c := s.pool.stats[r];
    var rate := Pool.Rate(c.ok, c.sent);
    var s0 := Goto(s, t, Searching(query, search));
    var s1 := Goto(s, t, LoadedOk(query, search, r, c.ok));
    var s2 := Goto(s, t, LoadedSent(query, search, r, c.ok, c.sent));
    var score := Pool.ScoreFrom(rate, c.latency);
    RateNonNegative(c.ok, c.sent);
    Pool.ScoreNonNegative(rate, c.latency);
    next := Search(search.failed, search.snapshot, search.left - 1, Better(search.best, r, score),
                   search.drawn + [(r, P.Stats(c.sent, c.ok, 0, c.latency))]);
    hide Pool.Rate, Pool.ScoreFrom;
    EmptyRun(unpack, s0);
    assert Forwarding.Apply(unpack, s0, LoadOk(t, i)) == s1;
    RunThen(unpack, s0, [], s0, LoadOk(t, i));
    assert Forwarding.Apply(unpack, s1, LoadSent(t)) == s2;
    RunThen(unpack, s0, [] + [LoadOk(t, i)], s1, LoadSent(t));
    assert Forwarding.Apply(unpack, s2, LoadLatency(t))
        == Goto(s, t, Searching(query, next));
    RunThen(unpack, s0, [] + [LoadOk(t, i)] + [LoadSent(t)], s2, LoadLatency(t));
    acts := [] + [LoadOk(t, i)] + [LoadSent(t)] + [LoadLatency(t)];
  }

  lemma RateNonNegative(ok: nat, sent: nat)
    ensures Pool.Rate(ok, sent) >= 0.0
  {
    if sent > 0 { Pool.QuotientNonNegative(ok as real, sent as real); }
  }

  lemma EmptyRun(unpack: Unpacker, s: FState)
    ensures Run(unpack, s, [], s)
  {}

  lemma {:induction false} SearchRun(unpack: Unpacker, s: FState, t: nat, query: Message, search: Search, i: nat)
    returns (acts: seq<Action>)
    requires t < |s.threads| && !s.crashed && i < |search.snapshot| && search.snapshot[i] in s.pool.stats
    requires search.best.None? ==> search.left > 0
    requires search.best.Some? ==> search.best.value.0 == search.snapshot[i]
    ensures Solo(acts, t)
    ensures Run(unpack, Goto(s, t, Searching(query, search)), acts,
                Goto(s, t, Chosen(query, search.failed, search.snapshot[i])))
    decreases search.left
  {
    hide Run;
    var s0 := Goto(s, t, Searching(query, search));
    if search.left == 0 {
      EmptyRun(unpack, s0);
      assert Forwarding.Apply(unpack, s0, Choose(t)) == Goto(s, t, Chosen(query, search.failed, search.snapshot[i]));
      RunThen(unpack, s0, [], s0, Choose(t));
      acts := [] + [Choose(t)];
    } else {
      var first, next := Turn(unpack, s, t, query, search, i);
      var more := SearchRun(unpack, s, t, query, next, i);
      RunConcat(unpack, s0, first, Goto(s, t, Searching(query, next)), more,
                Goto(s, t, Chosen(query, search.failed, search.snapshot[i])));
      acts := first + more;
    }
  }

  /** GetNext can settle on any resolver of the snapshot. */
  lemma PickRun(unpack: Unpacker, s: FState, t: nat, query: Message, failed: Option<P.Resolver>, r: P.Resolver)
    returns (acts: seq<Action>)
    requires t < |s.threads| && !s.crashed && P.Wf(s.pool) && r in s.pool.healthyCache
    ensures Solo(acts, t)
    ensures Run(unpack, Goto(s, t, NeedsResolver(query, failed)), acts, Goto(s, t, Chosen(query, failed, r)))
  {
    hide Run, P.Wf;
    P.CacheHasStats(s.pool);
    var i :| 0 <= i < |s.pool.healthyCache| && s.pool.healthyCache[i] == r;
    var snapshot := s.pool.healthyCache;
    var search := Search(failed, snapshot, if |snapshot| < 3 then |snapshot| else 3, None, []);
    var s0 := Goto(s, t, NeedsResolver(query, failed));
    EmptyRun(unpack, s0);
    assert Forwarding.Apply(unpack, s0, TakeSnapshot(t)) == Goto(s, t, Searching(query, search));
    RunThen(unpack, s0, [], s0, TakeSnapshot(t));
    var more := SearchRun(unpack, s, t, query, search, i);
    acts := [] + [TakeSnapshot(t)] + more;
    RunConcat(unpack, s0, [] + [TakeSnapshot(t)], Goto(s, t, Searching(query, search)), more,
              Goto(s, t, Chosen(query, failed, r)));
  }

  // --- an attempt

  /** The state after the pool operations `ops`. */
  function After(s: FState, ops: seq<P.Op>): FState
    requires P.Runs(s.pool, ops)
  {
    s.(pool := P.After(s.pool, ops), poolOps := s.poolOps + ops)
  }

  /** Choosing, sending and the upstream's reaction, for a resolver that has not failed. */
  lemma AttemptRun(unpack: Unpacker, s: FState, t: nat, query: Message, failed: Option<P.Resolver>, r: P.Resolver,
                   u: Proxy.Upstream) returns (acts: seq<Action>)
    requires t < |s.threads| && !s.crashed && P.Wf(s.pool) && r in s.pool.healthyCache && failed != Some(r)
    ensures P.Runs(s.pool, [P.Sent(r), Proxy.Mark(r, u)]) && Solo(acts, t)
    ensures Run(unpack, Goto(s, t, NeedsResolver(query, failed)), acts,
                Goto(Heard(After(s, [P.Sent(r), Proxy.Mark(r, u)]), query, u), t, Reached(query, failed, r, u)))
  {
    hide Run, P.Wf, P.Run, P.Apply, Forwarding.Apply;
    P.CacheHasStats(s.pool);
    var s0 := Goto(s, t, NeedsResolver(query, failed));
    var chosen := PickRun(unpack, s, t, query, failed, r);
    var s1 := Goto(s, t, Chosen(query, failed, r));
    var last := SendRun(unpack, s, t, query, failed, r, u);
    var s2 := Goto(Heard(After(s, [P.Sent(r), Proxy.Mark(r, u)]), query, u), t, Reached(query, failed, r, u));
    RunConcat(unpack, s0, chosen, s1, last, s2);
    acts := chosen + last;
  }

  /** The part after the choice. */
  lemma SendRun(unpack: Unpacker, s: FState, t: nat, query: Message, failed: Option<P.Resolver>, r: P.Resolver,
                u: Proxy.Upstream) returns (acts: seq<Action>)
    requires t < |s.threads| && !s.crashed && P.Wf(s.pool) && r in s.pool.stats && failed != Some(r)
    ensures P.Runs(s.pool, [P.Sent(r), Proxy.Mark(r, u)]) && Solo(acts, t)
    ensures Run(unpack, Goto(s, t, Chosen(query, failed, r)), acts,
                Goto(Heard(After(s, [P.Sent(r), Proxy.Mark(r, u)]), query, u), t, Reached(query, failed, r, u)))
  {
    hide Run, P.Wf, P.Run, P.Apply;
    Proxy.EmptyRun(s.pool);
    Proxy.AttemptAddsUp(s.pool, [], r, u);
    assert [] + [P.Sent(r), Proxy.Mark(r, u)] == [P.Sent(r), Proxy.Mark(r, u)];
    var s1 := Goto(s, t, Chosen(query, failed, r));
    var s2 := Goto(WithPool(s, P.Sent(r)), t, InFlight(query, failed, r));
    EmptyRun(unpack, s1);
    assert Forwarding.Apply(unpack, s1, Send(t)) == s2;
    RunThen(unpack, s1, [], s1, Send(t));
    var last := Reaction(t, u);
    MarkRun(unpack, s, t, query, failed, r, u);
    RunThen(unpack, s1, [] + [Send(t)], s2, last);
    acts := [] + [Send(t)] + [last];
  }

  function Reaction(t: nat, u: Proxy.Upstream): Action {
    if u.Replied? then Succeed(t, u.response, u.latency) else Fail(t)
  }

  lemma MarkRun(unpack: Unpacker, s: FState, t: nat, query: Message, failed: Option<P.Resolver>, r: P.Resolver,
                u: Proxy.Upstream)
    requires t < |s.threads| && !s.crashed && P.Enabled(s.pool, P.Sent(r))
    requires P.Runs(s.pool, [P.Sent(r), Proxy.Mark(r, u)]) && P.Enabled(P.Apply(s.pool, P.Sent(r)), Proxy.Mark(r, u))
    requires P.After(s.pool, [P.Sent(r), Proxy.Mark(r, u)]) == P.Apply(P.Apply(s.pool, P.Sent(r)), Proxy.Mark(r, u))
    ensures var s2 := Goto(WithPool(s, P.Sent(r)), t, InFlight(query, failed, r));
            && Forwarding.Enabled(s2, Reaction(t, u))
            && Forwarding.Apply(unpack, s2, Reaction(t, u))
               == Goto(Heard(After(s, [P.Sent(r), Proxy.Mark(r, u)]), query, u), t, Reached(query, failed, r, u))
  {
    hide P.Run, P.Runs, P.Apply, P.Enabled;
    assert s.poolOps + [P.Sent(r)] + [Proxy.Mark(r, u)] == s.poolOps + [P.Sent(r), Proxy.Mark(r, u)];
  }

  function Heard(s: FState, query: Message, u: Proxy.Upstream): FState {
    if u.Replied? then s.(upstream := s.upstream + {(query, u.response)}) else s
  }

  function Reached(query: Message, failed: Option<P.Resolver>, r: P.Resolver, u: Proxy.Upstream): Thread {
    if u.Replied? then Answered(query, u.response)
    else if failed.None? then NeedsResolver(query, Some(r))
    else Finished
  }

  // --- the whole query

  /** What a query leaves alone apart from its own thread and the pool. */
  ghost predicate Asked(s: FState, u: FState, t: nat, query: Message, o: Proxy.Outcome) {
    && P.Runs(s.pool, o.ops) && u.pool == P.After(s.pool, o.ops)
    && u.(pool := s.pool, poolOps := s.poolOps, upstream := s.upstream, threads := s.threads) == s
    && t < |u.threads| && u.threads[t] == if o.response.Some? then Answered(query, o.response.value) else Finished
  }

  /** The attempt and the retry. */
  lemma AskRun(unpack: Unpacker, s: FState, t: nat, query: Message, first: Proxy.Upstream, second: Proxy.Upstream,
               r: P.Resolver, retry: P.Resolver) returns (acts: seq<Action>, u: FState)
    requires t < |s.threads| && !s.crashed && Proxy.Offered(s.pool, first, r, retry)
    ensures Run(unpack, Goto(s, t, NeedsResolver(query, None)), acts, u) && Solo(acts, t)
    ensures Asked(s, u, t, query, Proxy.Attempted(r, first, retry, second))
  {
    hide Run, P.Wf, P.Run, P.Apply;
    var once := [P.Sent(r), Proxy.Mark(r, first)];
    var s0 := Goto(s, t, NeedsResolver(query, None));
    acts := AttemptRun(unpack, s, t, query, None, r, first);
    if first.Replied? {
      u := Goto(Heard(After(s, once), query, first), t, Answered(query, first.response));
    } else {
      var s1 := After(s, once);
      Proxy.EmptyRun(s.pool);
      Proxy.AttemptAddsUp(s.pool, [], r, first);
      assert [] + once == once;
      if retry == r {
        var more := PickRun(unpack, s1, t, query, Some(r), r);
        var s2 := Goto(s1, t, Chosen(query, Some(r), r));
        RunConcat(unpack, s0, acts, Goto(s1, t, NeedsResolver(query, Some(r))), more, s2);
        u := Goto(s1, t, Finished);
        assert Forwarding.Apply(unpack, s2, Send(t)) == u;
        RunThen(unpack, s0, acts + more, s2, Send(t));
        acts := acts + more + [Send(t)];
      } else {
        var more := AttemptRun(unpack, s1, t, query, Some(r), retry, second);
        var twice := [P.Sent(retry), Proxy.Mark(retry, second)];
        Proxy.RunsCompose(s.pool, once, twice);
        u := Goto(Heard(After(s1, twice), query, second), t, Reached(query, Some(r), retry, second));
        RunConcat(unpack, s0, acts, Goto(s1, t, NeedsResolver(query, Some(r))), more, u);
        acts := acts + more;
      }
    }
  }

  function ServiceOf(s: FState): Proxy.Service {
    Proxy.Service(s.pool, if s.cacheOn then Some(s.cache) else None)
  }

  /** The replies written since `s`. */
  ghost predicate Wrote(s: FState, u: FState, query: Message, reply: Option<seq<byte>>) {
    if reply.None? then u.written == s.written
    else exists g :: u.written == s.written + [Written(query, reply.value, g)]
  }

  /** The state in which the query has just been read. */
  function Arrived(s: FState, query: Message): FState {
    s.(threads := s.threads + [AtCache(query)])
  }

  /** The look-up of a query at time `asked`. */
  lemma LookUpRun(unpack: Unpacker, s: FState, query: Message, asked: int) returns (acts: seq<Action>, u: FState)
    requires !s.crashed && s.now <= asked
    ensures Run(unpack, Arrived(s, query), acts, u) && Solo(acts, |s.threads|)
    ensures var t := |s.threads|;
            var hit := Proxy.Cached(unpack, ServiceOf(s).cache, query, asked);
            && u.pool == s.pool && !u.crashed && u.now == asked && u.cacheOn == s.cacheOn && u.maxSize == s.maxSize
            && ServiceOf(u).cache == Proxy.CacheStep(unpack, s.maxSize, ServiceOf(s).cache, C.Get(asked, query))
            && |u.threads| == t + 1 && u.threads[t] == (if hit.Some? then Finished else NeedsResolver(query, None))
            && Wrote(s, u, query, hit)
  {
    hide Run, C.Step, C.Reply;
    var t := |s.threads|;
    var s0 := Arrived(s, query);
    EmptyRun(unpack, s0);
    RunThen(unpack, s0, [], s0, Tick(asked));
    var s1 := Forwarding.Apply(unpack, s0, Tick(asked));
    RunThen(unpack, s0, [] + [Tick(asked)], s1, LookUp(t));
    acts, u := [] + [Tick(asked)] + [LookUp(t)], Forwarding.Apply(unpack, s1, LookUp(t));
  }

  /** The answer at time `stored`: the response is cached and written. */
  lemma RespondRun(unpack: Unpacker, s: FState, t: nat, query: Message, response: Message, stored: int)
    returns (acts: seq<Action>, u: FState)
    requires !s.crashed && s.now <= stored && t < |s.threads| && s.threads[t] == Answered(query, response)
    ensures Run(unpack, s, acts, u) && Solo(acts, t)
    ensures t < |u.threads| && u.threads[t] == Finished
    ensures && u.pool == s.pool && u.cacheOn == s.cacheOn && Wrote(s, u, query, Some(response)) && !u.crashed
            && ServiceOf(u).cache
               == Proxy.CacheStep(unpack, s.maxSize, ServiceOf(s).cache, C.Put(stored, query, response))
  {
    hide Run, C.Step, C.Reply;
    EmptyRun(unpack, s);
    RunThen(unpack, s, [], s, Tick(stored));
    var s1 := Forwarding.Apply(unpack, s, Tick(stored));
    RunThen(unpack, s, [] + [Tick(stored)], s1, Respond(t));
    acts, u := [] + [Tick(stored)] + [Respond(t)], Forwarding.Apply(unpack, s1, Respond(t));
    assert u.written == s.written + [Written(query, response, None)];
  }

  /** Every outcome of the method is the outcome of a run of the thread: the same pool and cache,
      the same reply written, starting from any state of the concurrent system. */
  lemma ServedIsARun(unpack: Unpacker, s: FState, query: Message, c: Proxy.Conditions, r: P.Resolver, retry: P.Resolver)
    returns (acts: seq<Action>, u: FState)
    requires !s.crashed && s.now <= c.asked <= c.stored && Proxy.Ready(ServiceOf(s), r, retry)
    requires Proxy.Cached(unpack, ServiceOf(s).cache, query, c.asked).None? ==> Proxy.Offered(s.pool, c.first, r, retry)
    ensures Run(unpack, Arrived(s, query), acts, u) && Solo(acts, |s.threads|)
    ensures !u.crashed && |s.threads| < |u.threads| && u.threads[|s.threads|] == Finished
    ensures var (after, reply) := Proxy.Served(unpack, s.maxSize, ServiceOf(s), query, c, r, retry);
            ServiceOf(u) == after && Wrote(s, u, query, reply)
  {
    hide Run, P.Wf, P.Run, P.Apply, C.Step, C.Reply, Proxy.Attempted;
    var t := |s.threads|;
    acts, u := LookUpRun(unpack, s, query, c.asked);
    if Proxy.Cached(unpack, ServiceOf(s).cache, query, c.asked).None? {
      var o := Proxy.Attempted(r, c.first, retry, c.second);
      var more, v := AskRun(unpack, u, t, query, c.first, c.second, r, retry);
      assert Goto(u, t, NeedsResolver(query, None)) == u;
      RunConcat(unpack, Arrived(s, query), acts, u, more, v);
      acts, u := acts + more, v;
      if o.response.Some? {
        var last, w := RespondRun(unpack, u, t, query, o.response.value, c.stored);
        RunConcat(unpack, Arrived(s, query), acts, u, last, w);
        acts, u := acts + last, w;
      }
    }
  }
}

/**
 * The converse of SingleQuery.ServedIsARun: whatever the thread of a query does while no other
 * thread gets a turn, the method could have done.
 */
module SoloRuns {
  import opened Options
  import opened Dns
  import opened Forwarding
  import opened SingleQuery
  import C = CacheModel
  import P = PoolModel
  import Pool
  import Proxy

  /** What the surroundings and the random choices have decided so far. */
  datatype Trail = Trail(asked: int, first: Proxy.Upstream, r: P.Resolver,
                         second: Proxy.Upstream, retry: P.Resolver, stored: int)

  function ConditionsOf(w: Trail): Proxy.Conditions {
    Proxy.Conditions(w.asked, w.first, w.second, w.stored)
  }

  function OutcomeOf(w: Trail): Proxy.Outcome {
    Proxy.Attempted(w.r, w.first, w.retry, w.second)
  }

  /** The query was looked up at `w.asked` and missed; nothing has been written since. */
  ghost predicate Missed(unpack: Unpacker, s: FState, u: FState, query: Message, w: Trail) {
    && s.now <= w.asked <= u.now && u.written == s.written
    && Proxy.Cached(unpack, ServiceOf(s).cache, query, w.asked).None?
    && ServiceOf(u).cache == Proxy.CacheStep(unpack, s.maxSize, ServiceOf(s).cache, C.Get(w.asked, query))
  }

  /** No attempt made yet, or the first one has failed. */
  ghost predicate Tried(p: P.Pool, now: P.Pool, failed: Option<P.Resolver>, w: Trail) {
    match failed
    case None => now == p
    case Some(f) =>
      && f == w.r && w.first.NoReply? && f in p.healthyCache && f in p.stats
      && P.Runs(p, [P.Sent(f), P.Failure(f)]) && now == P.After(p, [P.Sent(f), P.Failure(f)])
  }

  /** An attempt on `r` is in flight. */
  ghost predicate Trying(p: P.Pool, now: P.Pool, failed: Option<P.Resolver>, r: P.Resolver, w: Trail) {
    exists before: P.Pool ::
      && Tried(p, before, failed, w) && r in before.healthyCache && r in before.stats && failed != Some(r)
      && now == P.Apply(before, P.Sent(r))
  }

  /** The response is there. */
  ghost predicate Heard(p: P.Pool, now: P.Pool, response: Message, w: Trail) {
    && Proxy.Offered(p, w.first, w.r, w.retry) && P.Runs(p, OutcomeOf(w).ops)
    && now == P.After(p, OutcomeOf(w).ops) && OutcomeOf(w).response == Some(response)
  }

  /** The query is done as the method would have done it. */
  ghost predicate Done(unpack: Unpacker, s: FState, u: FState, query: Message, w: Trail) {
    && s.now <= w.asked <= w.stored && Proxy.Ready(ServiceOf(s), w.r, w.retry)
    && (Proxy.Cached(unpack, ServiceOf(s).cache, query, w.asked).None? ==> Proxy.Offered(s.pool, w.first, w.r, w.retry))
    && var (after, reply) := Proxy.Served(unpack, s.maxSize, ServiceOf(s), query, ConditionsOf(w), w.r, w.retry);
       ServiceOf(u) == after && Wrote(s, u, query, reply)
  }

  /** The candidates drawn so far are from the pool's healthy list. */
  ghost predicate Drawn(p: P.Pool, search: Search) {
    search.snapshot == p.healthyCache && (search.best.Some? ==> search.best.value.0 in p.healthyCache)
  }

  /** How far the thread has come, seen from the state `s` in which its query was not yet read. */
  ghost predicate At(unpack: Unpacker, s: FState, u: FState, t: nat, query: Message, w: Trail) {
    && t < |u.threads| && u.cacheOn == s.cacheOn && u.maxSize == s.maxSize && s.now <= u.now
    && match u.threads[t]
       case AtCache(q) => q == query && ServiceOf(u) == ServiceOf(s) && u.written == s.written
       case NeedsResolver(q, failed) =>
         q == query && Missed(unpack, s, u, query, w) && Tried(s.pool, u.pool, failed, w)
       case Searching(q, search) =>
         && q == query && Missed(unpack, s, u, query, w) && Tried(s.pool, u.pool, search.failed, w)
         && Drawn(u.pool, search)
       case LoadedOk(q, search, r, _) =>
         && q == query && Missed(unpack, s, u, query, w) && Tried(s.pool, u.pool, search.failed, w)
         && Drawn(u.pool, search) && r in u.pool.healthyCache
       case LoadedSent(q, search, r, _, _) =>
         && q == query && Missed(unpack, s, u, query, w) && Tried(s.pool, u.pool, search.failed, w)
         && Drawn(u.pool, search) && r in u.pool.healthyCache
       case Chosen(q, failed, r) =>
         q == query && Missed(unpack, s, u, query, w) && Tried(s.pool, u.pool, failed, w) && r in u.pool.healthyCache
       case InFlight(q, failed, r) =>
         q == query && Missed(unpack, s, u, query, w) && Trying(s.pool, u.pool, failed, r, w)
       case Answered(q, response) =>
         q == query && Missed(unpack, s, u, query, w) && Heard(s.pool, u.pool, response, w)
       case Finished => Done(unpack, s, u, query, w)
  }

  // --- one step

  lemma TickStep(unpack: Unpacker, s: FState, u: FState, t: nat, query: Message, w: Trail, later: int)
    requires At(unpack, s, u, t, query, w) && u.now <= later
    ensures At(unpack, s, u.(now := later), t, query, w)
  {
    hide Tried, Trying, Heard, Drawn, P.Wf, C.Step, C.Reply;
    var v := u.(now := later);
    assert ServiceOf(v) == ServiceOf(u);
    if u.threads[t].Finished? { assert Done(unpack, s, v, query, w); }
  }

  lemma LookUpStep(unpack: Unpacker, s: FState, u: FState, t: nat, query: Message, w: Trail) returns (w': Trail)
    requires At(unpack, s, u, t, query, w) && Forwarding.Enabled(u, LookUp(t))
    requires P.Wf(s.pool) && s.pool.resolvers != []
    ensures At(unpack, s, Forwarding.Apply(unpack, u, LookUp(t)), t, query, w')
  {
    hide C.Step, C.Reply, P.Wf, Proxy.Attempted;
    P.CacheHasStats(s.pool);
    var r := s.pool.healthyCache[0];
    w' := Trail(u.now, w.first, r, w.second, r, u.now);
  }

  lemma SearchStep(unpack: Unpacker, s: FState, u: FState, a: Action, t: nat, query: Message, w: Trail)
    requires At(unpack, s, u, t, query, w) && Forwarding.Enabled(u, a) && Own(a, t)
    requires a.TakeSnapshot? || a.LoadOk? || a.LoadSent? || a.LoadLatency? || a.Choose?
    requires !Forwarding.Apply(unpack, u, a).crashed
    ensures At(unpack, s, Forwarding.Apply(unpack, u, a), t, query, w)
  {
    hide Missed, Tried, Pool.Rate, Pool.ScoreFrom;
    var v := Forwarding.Apply(unpack, u, a);
    SameMiss(unpack, s, u, v, query, w);
  }

  /** Missed looks only at the time, the cache and what was written. */
  lemma SameMiss(unpack: Unpacker, s: FState, u: FState, v: FState, query: Message, w: Trail)
    requires v.now == u.now && v.written == u.written && ServiceOf(v).cache == ServiceOf(u).cache
    ensures Missed(unpack, s, u, query, w) ==> Missed(unpack, s, v, query, w)
  {
    hide C.Step, C.Reply;
  }

  lemma SendStep(unpack: Unpacker, s: FState, u: FState, t: nat, query: Message, w: Trail) returns (w': Trail)
    requires At(unpack, s, u, t, query, w) && Forwarding.Enabled(u, Send(t)) && P.Wf(s.pool)
    requires !Forwarding.Apply(unpack, u, Send(t)).crashed
    ensures At(unpack, s, Forwarding.Apply(unpack, u, Send(t)), t, query, w')
  {
    hide P.Wf, P.Apply, P.Run, C.Step, C.Reply;
    var th := u.threads[t];
    var v := Forwarding.Apply(unpack, u, Send(t));
    SameMiss(unpack, s, u, v, query, w);
    if th.failed == Some(th.r) {
      w' := w.(retry := th.r, stored := w.asked);
      assert OutcomeOf(w') == Proxy.Outcome([P.Sent(th.r), P.Failure(th.r)], None);
      assert Missed(unpack, s, v, query, w');
      assert Done(unpack, s, v, query, w');
    } else {
      w' := w;
      assert Trying(s.pool, v.pool, th.failed, th.r, w);
    }
  }

  /** How an attempt in flight ends for the pool. */
  lemma AttemptEnds(p: P.Pool, now: P.Pool, failed: Option<P.Resolver>, r: P.Resolver, w: Trail, u: Proxy.Upstream)
    returns (w': Trail)
    requires P.Wf(p) && Trying(p, now, failed, r, w)
    ensures w' == if failed.None? then w.(r := r, first := u, retry := r) else w.(retry := r, second := u)
    ensures P.Enabled(now, Proxy.Mark(r, u)) && P.Runs(p, OutcomeOf(w').ops)
    ensures P.Apply(now, Proxy.Mark(r, u)) == P.After(p, OutcomeOf(w').ops)
    ensures OutcomeOf(w').response == Proxy.ResponseOf(u)
    ensures (failed.Some? || u.Replied?) ==> Proxy.Offered(p, w'.first, w'.r, w'.retry)
    ensures failed.None? && u.NoReply? ==> Tried(p, P.Apply(now, Proxy.Mark(r, u)), Some(r), w')
  {
    hide P.Wf, P.Apply, P.Run;
    w' := if failed.None? then w.(r := r, first := u, retry := r) else w.(retry := r, second := u);
    var before :| && Tried(p, before, failed, w) && r in before.healthyCache && r in before.stats && failed != Some(r)
                  && now == P.Apply(before, P.Sent(r));
    Proxy.EmptyRun(p);
    assert [] + [P.Sent(r), Proxy.Mark(r, u)] == [P.Sent(r), Proxy.Mark(r, u)];
    if failed.None? {
      Proxy.AttemptAddsUp(p, [], r, u);
    } else {
      var once := [P.Sent(w.r), P.Failure(w.r)];
      assert [] + once == once;
      Proxy.AttemptAddsUp(p, [], w.r, w.first);
      Proxy.AttemptAddsUp(p, once, r, u);
    }
  }

  lemma MarkStep(unpack: Unpacker, s: FState, u: FState, a: Action, t: nat, query: Message, w: Trail)
    returns (w': Trail)
    requires At(unpack, s, u, t, query, w) && Forwarding.Enabled(u, a) && Own(a, t) && (a.Fail? || a.Succeed?)
    requires P.Wf(s.pool) && !Forwarding.Apply(unpack, u, a).crashed
    ensures At(unpack, s, Forwarding.Apply(unpack, u, a), t, query, w')
  {
    hide P.Wf, P.Apply, P.Run, P.Enabled, C.Step, C.Reply, Proxy.Attempted, Proxy.Offered, Tried, Trying;
    var th := u.threads[t];
    var v := Forwarding.Apply(unpack, u, a);
    var reaction := if a.Succeed? then Proxy.Replied(a.response, a.latency) else Proxy.NoReply;
    w' := AttemptEnds(s.pool, u.pool, th.failed, th.r, w, reaction);
    w' := w'.(stored := w'.asked);
    SameTrail(s.pool, v.pool, Some(th.r), w'.(stored := w.stored), w');
    assert v.pool == P.Apply(u.pool, Proxy.Mark(th.r, reaction));
    SameMiss(unpack, s, u, v, query, w);
    assert Missed(unpack, s, v, query, w');
    if a.Fail? && th.failed.Some? { FailedIsDone(unpack, s, v, query, w'); }
  }

  /** When the answer is stored plays no part before. */
  lemma SameTrail(p: P.Pool, now: P.Pool, failed: Option<P.Resolver>, w: Trail, w': Trail)
    requires w' == w.(stored := w'.stored)
    ensures Tried(p, now, failed, w) ==> Tried(p, now, failed, w')
    ensures OutcomeOf(w') == OutcomeOf(w)
  {
    hide P.Run;
  }

  /** No answer: the query ends without a reply. */
  lemma FailedIsDone(unpack: Unpacker, s: FState, v: FState, query: Message, w: Trail)
    requires P.Wf(s.pool) && Missed(unpack, s, v, query, w) && w.stored == w.asked
    requires Proxy.Offered(s.pool, w.first, w.r, w.retry) && OutcomeOf(w).response == None
    requires P.Runs(s.pool, OutcomeOf(w).ops) && v.pool == P.After(s.pool, OutcomeOf(w).ops)
    ensures Done(unpack, s, v, query, w)
  {
    hide P.Wf, P.Run, C.Step, C.Reply, Proxy.Attempted;
  }

  lemma RespondStep(unpack: Unpacker, s: FState, u: FState, t: nat, query: Message, w: Trail) returns (w': Trail)
    requires At(unpack, s, u, t, query, w) && Forwarding.Enabled(u, Respond(t)) && P.Wf(s.pool)
    ensures At(unpack, s, Forwarding.Apply(unpack, u, Respond(t)), t, query, w')
  {
    hide P.Wf, P.Run, C.Step, C.Reply, Proxy.Attempted;
    w' := w.(stored := u.now);
    SameTrail(s.pool, u.pool, None, w, w');
    var v := Forwarding.Apply(unpack, u, Respond(t));
    assert v.written == s.written + [Written(query, u.threads[t].response, None)];
    assert Done(unpack, s, v, query, w');
  }

  lemma OwnStep(unpack: Unpacker, s: FState, u: FState, a: Action, t: nat, query: Message, w: Trail)
    returns (w': Trail)
    requires At(unpack, s, u, t, query, w) && Forwarding.Enabled(u, a) && Own(a, t)
    requires P.Wf(s.pool) && s.pool.resolvers != [] && !Forwarding.Apply(unpack, u, a).crashed
    ensures At(unpack, s, Forwarding.Apply(unpack, u, a), t, query, w')
  {
    hide At, P.Wf;
    w' := w;
    match a
    case Tick(later) => TickStep(unpack, s, u, t, query, w, later);
    case LookUp(_) => w' := LookUpStep(unpack, s, u, t, query, w);
    case Send(_) => w' := SendStep(unpack, s, u, t, query, w);
    case Fail(_) => w' := MarkStep(unpack, s, u, a, t, query, w);
    case Succeed(_, _, _) => w' := MarkStep(unpack, s, u, a, t, query, w);
    case Respond(_) => w' := RespondStep(unpack, s, u, t, query, w);
    case _ => SearchStep(unpack, s, u, a, t, query, w);
  }

  lemma {:induction false} OwnRun(unpack: Unpacker, s: FState, u: FState, acts: seq<Action>, v: FState, t: nat,
                                  query: Message, w: Trail) returns (w': Trail)
    requires At(unpack, s, u, t, query, w) && Run(unpack, u, acts, v) && Solo(acts, t)
    requires P.Wf(s.pool) && s.pool.resolvers != [] && !v.crashed
    ensures At(unpack, s, v, t, query, w')
    decreases |acts|
  {
    hide At, P.Wf, Forwarding.Apply;
    w' := w;
    if acts != [] {
      var u' := Forwarding.Apply(unpack, u, acts[0]);
      CrashesStay(unpack, u', acts[1..], v);
      w' := OwnStep(unpack, s, u, acts[0], t, query, w);
      w' := OwnRun(unpack, s, u', acts[1..], v, t, query, w');
    }
  }

  lemma CrashesStay(unpack: Unpacker, u: FState, acts: seq<Action>, v: FState)
    requires Run(unpack, u, acts, v)
    ensures u.crashed ==> v.crashed
  {}

  /** Whatever the thread does alone, the method could have done: the same pool and cache, the
      same reply written. */
  lemma RunIsServed(unpack: Unpacker, s: FState, query: Message, acts: seq<Action>, u: FState)
    returns (c: Proxy.Conditions, r: P.Resolver, retry: P.Resolver)
    requires P.Wf(s.pool) && s.pool.resolvers != []
    requires Run(unpack, Arrived(s, query), acts, u) && Solo(acts, |s.threads|)
    requires !u.crashed && |s.threads| < |u.threads| && u.threads[|s.threads|] == Finished
    ensures s.now <= c.asked <= c.stored && Proxy.Ready(ServiceOf(s), r, retry)
    ensures Proxy.Cached(unpack, ServiceOf(s).cache, query, c.asked).None? ==>
              Proxy.Offered(s.pool, c.first, r, retry)
    ensures var (after, reply) := Proxy.Served(unpack, s.maxSize, ServiceOf(s), query, c, r, retry);
            ServiceOf(u) == after && Wrote(s, u, query, reply)
  {
    hide P.Wf, Run;
    P.CacheHasStats(s.pool);
    var any := s.pool.healthyCache[0];
    var w := Trail(0, Proxy.NoReply, any, Proxy.NoReply, any, 0);
    w := OwnRun(unpack, s, Arrived(s, query), acts, u, |s.threads|, query, w);
    c, r, retry := ConditionsOf(w), w.r, w.retry;
  }
}

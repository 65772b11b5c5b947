/**
 * Many forward and handle goroutines (proxy.go) over one pool and one cache, as a transition
 * system.  UDPProxy.forward and TCPProxy.handle run the same program between reading a query
 * and writing a reply; a thread is at one of its program points.
 *
 * A critical section or an atomic load is one step.  GetNext reads a snapshot of healthyCache
 * and then, without the lock, loads three counters per candidate: every load is a step of its
 * own, so other threads run in between.  Upstream replies, latencies, the random candidates,
 * the clock, health checks and list replacements are arbitrary.
 */
module Forwarding {
  import opened Options
  import opened Dns
  import opened PoolModel
  import C = CacheModel
  import Pool

  type Message = seq<byte>

  /** GetNext under way: the snapshot it reads, how many candidates are left, the best so far; and
      the candidates drawn, with the counters loaded for them. */
  datatype Search = Search(failed: Option<Resolver>, snapshot: seq<Resolver>, left: nat,
                           best: Option<(Resolver, real)>, drawn: seq<(Resolver, Stats)>)

  /** `failed` is the resolver of the first attempt once that has failed. */
  datatype Thread =
    | AtCache(query: Message)
    | NeedsResolver(query: Message, failed: Option<Resolver>)
    | Searching(query: Message, search: Search)
    | LoadedOk(query: Message, search: Search, r: Resolver, ok: nat)
    | LoadedSent(query: Message, search: Search, r: Resolver, ok: nat, sent: nat)
    | Chosen(query: Message, failed: Option<Resolver>, r: Resolver)
    | InFlight(query: Message, failed: Option<Resolver>, r: Resolver)
    | Answered(query: Message, response: Message)
    | Finished

  /** A reply written to a client; from the cache, it names the Get that found it. */
  datatype Written = Written(query: Message, bytes: Message, fromGet: Option<nat>)

  datatype State = State(pool: PoolModel.Pool, poolOps: seq<Op>, threads: seq<Thread>,
                         cacheOn: bool, maxSize: int, cache: C.Recency, cacheOps: seq<C.Op>,
                         now: int, upstream: set<(Message, Message)>, written: seq<Written>, crashed: bool)

  datatype Action =
    | Arrive(query: Message)
    | LookUp(t: nat)
    | TakeSnapshot(t: nat)
    | LoadOk(t: nat, pick: nat)
    | LoadSent(t: nat)
    | LoadLatency(t: nat)
    | Choose(t: nat)
    | Send(t: nat)
    | Fail(t: nat)
    | Succeed(t: nat, response: Message, latency: int)
    | Respond(t: nat)
    | Tick(later: int)
    | Environment(op: Op)

  predicate Enabled(s: State, a: Action) {
    !s.crashed &&
    match a
    case Arrive(_) => true
    case LookUp(t) => t < |s.threads| && s.threads[t].AtCache?
    case TakeSnapshot(t) => t < |s.threads| && s.threads[t].NeedsResolver?
    case LoadOk(t, pick) =>
      t < |s.threads| && s.threads[t].Searching? && s.threads[t].search.left > 0
      && pick < |s.threads[t].search.snapshot|
    case LoadSent(t) => t < |s.threads| && s.threads[t].LoadedOk?
    case LoadLatency(t) => t < |s.threads| && s.threads[t].LoadedSent?
    case Choose(t) => t < |s.threads| && s.threads[t].Searching? && s.threads[t].search.left == 0
    case Send(t) => t < |s.threads| && s.threads[t].Chosen?
    case Fail(t) => t < |s.threads| && s.threads[t].InFlight?
    case Succeed(t, _, _) => t < |s.threads| && s.threads[t].InFlight?
    case Respond(t) => t < |s.threads| && s.threads[t].Answered?
    case Tick(later) => s.now <= later
    case Environment(op) => FromOutside(s, op)
  }

  /** Health checks on resolvers that were listed, non-empty new lists, callback registration. */
  predicate FromOutside(s: State, op: Op) {
    match op
    case Probes(results) => forall i :: 0 <= i < |results| ==> results[i].0 in s.pool.stats
    case Update(ordered) => ordered != []
    case SetCallback(_) => true
    case _ => false
  }

  function Init(resolvers: seq<Resolver>, cacheOn: bool, maxSize: int, now: int): State {
    State(New(resolvers), [], [], cacheOn, maxSize, [], [], now, {}, [], false)
  }

  function Goto(s: State, t: nat, th: Thread): State
    requires t < |s.threads|
  {
    s.(threads := s.threads[t := th])
  }

  /** One pool operation; a missing stats entry is a crash. */
  function WithPool(s: State, op: Op): State {
    if PoolModel.Enabled(s.pool, op) then s.(pool := PoolModel.Apply(s.pool, op), poolOps := s.poolOps + [op])
    else s.(crashed := true)
  }

  function WithCache(s: State, unpack: Unpacker, op: C.Op): State {
    s.(cache := C.Step(unpack, s.cache, op, s.maxSize), cacheOps := s.cacheOps + [op])
  }

  function Better(best: Option<(Resolver, real)>, r: Resolver, score: real): Option<(Resolver, real)> {
    if score > (if best.Some? then best.value.1 else -1.0) then Some((r, score)) else best
  }

  function Apply(unpack: Unpacker, s: State, a: Action): State
    requires Enabled(s, a)
  {
    match a
    case Arrive(query) => s.(threads := s.threads + [AtCache(query)])
    case LookUp(t) =>
      var query := s.threads[t].query;
      if !s.cacheOn then Goto(s, t, NeedsResolver(query, None))
      else
        var get := C.Get(s.now, query);
        var s1 := WithCache(s, unpack, get);
        (match C.Reply(unpack, s.cache, get)
         case None => Goto(s1, t, NeedsResolver(query, None))
         case Some(bytes) => Goto(s1.(written := s.written + [Written(query, bytes, Some(|s.cacheOps|))]), t, Finished))
    case TakeSnapshot(t) =>
      var snapshot := s.pool.healthyCache;
      if snapshot == [] then s.(crashed := true)
      else
        var th := s.threads[t];
        var candidates := if |snapshot| < 3 then |snapshot| else 3;
        Goto(s, t, Searching(th.query, Search(th.failed, snapshot, candidates, None, [])))
    case LoadOk(t, pick) =>
      var th := s.threads[t];
      var r := th.search.snapshot[pick];
      if r !in s.pool.stats then s.(crashed := true)
      else Goto(s, t, LoadedOk(th.query, th.search, r, s.pool.stats[r].ok))
    case LoadSent(t) =>
      var th := s.threads[t];
      if th.r !in s.pool.stats then s.(crashed := true)
      else Goto(s, t, LoadedSent(th.query, th.search, th.r, th.ok, s.pool.stats[th.r].sent))
    case LoadLatency(t) =>
      var th := s.threads[t];
      if th.r !in s.pool.stats || th.search.left == 0 then s.(crashed := true)
      else
        var loaded := Stats(th.sent, th.ok, 0, s.pool.stats[th.r].latency);
        var score := Pool.ScoreFrom(Pool.Rate(th.ok, th.sent), loaded.latency);
        var best := Better(th.search.best, th.r, score);
        Goto(s, t, Searching(th.query, Search(th.search.failed, th.search.snapshot, th.search.left - 1, best,
                                              th.search.drawn + [(th.r, loaded)])))
    case Choose(t) =>
      var th := s.threads[t];
      if th.search.best.None? then s.(crashed := true)
      else Goto(s, t, Chosen(th.query, th.search.failed, th.search.best.value.0))
    case Send(t) =>
      var th := s.threads[t];
      if th.failed == Some(th.r) then Goto(s, t, Finished)
      else Goto(WithPool(s, Sent(th.r)), t, InFlight(th.query, th.failed, th.r))
    case Fail(t) =>
      var th := s.threads[t];
      Goto(WithPool(s, Failure(th.r)), t, if th.failed.None? then NeedsResolver(th.query, Some(th.r)) else Finished)
    case Succeed(t, response, latency) =>
      var th := s.threads[t];
      Goto(WithPool(s.(upstream := s.upstream + {(th.query, response)}), Success(th.r, latency)), t,
           Answered(th.query, response))
    case Respond(t) =>
      var th := s.threads[t];
      var s1 := if s.cacheOn then WithCache(s, unpack, C.Put(s.now, th.query, th.response)) else s;
      Goto(s1.(written := s.written + [Written(th.query, th.response, None)]), t, Finished)
    case Tick(later) => s.(now := later)
    case Environment(op) => WithPool(s, op)
  }

  ghost predicate Run(unpack: Unpacker, s: State, acts: seq<Action>, t: State)
    decreases |acts|
  {
    if acts == [] then t == s
    else Enabled(s, acts[0]) && Run(unpack, Apply(unpack, s, acts[0]), acts[1..], t)
  }

  // --- attempts in flight

  function Flying(th: Thread, r: Resolver): nat {
    if th.InFlight? && th.r == r then 1 else 0
  }

  /** Attempts on `r` that were sent and not yet marked. */
  function Attempts(threads: seq<Thread>, r: Resolver): nat {
    if threads == [] then 0 else Attempts(threads[..|threads| - 1], r) + Flying(threads[|threads| - 1], r)
  }

  lemma {:induction false} AttemptsUpdate(threads: seq<Thread>, t: nat, th: Thread, r: Resolver)
    requires t < |threads|
    ensures Attempts(threads[t := th], r) == Attempts(threads, r) - Flying(threads[t], r) + Flying(th, r)
  {
    var n := |threads| - 1;
    if t < n {
      AttemptsUpdate(threads[..n], t, th, r);
      assert threads[t := th][..n] == threads[..n][t := th];
    } else {
      assert threads[t := th][..n] == threads[..n];
    }
  }

  lemma {:induction false} NoneFlying(threads: seq<Thread>, r: Resolver)
    requires forall t :: 0 <= t < |threads| ==> Flying(threads[t], r) == 0
    ensures Attempts(threads, r) == 0
  {
    if threads != [] { NoneFlying(threads[..|threads| - 1], r); }
  }

  // --- invariant

  ghost predicate SearchOk(p: PoolModel.Pool, search: Search) {
    && search.snapshot != [] && (forall r :: r in search.snapshot ==> r in p.stats)
    && (search.best.Some? ==> search.best.value.0 in p.stats)
    && (search.left == 0 ==> search.best.Some?)
  }

  ghost predicate ThreadOk(p: PoolModel.Pool, th: Thread) {
    match th
    case Searching(_, search) => SearchOk(p, search)
    case LoadedOk(_, search, r, ok) => SearchOk(p, search) && search.left > 0 && r in p.stats && ok <= p.stats[r].ok
    case LoadedSent(_, search, r, ok, sent) => SearchOk(p, search) && search.left > 0 && r in p.stats && ok <= sent
    case Chosen(_, _, r) => r in p.stats
    case InFlight(_, _, r) => r in p.stats
    case _ => true
  }

  ghost predicate ThreadsOk(p: PoolModel.Pool, threads: seq<Thread>) {
    forall t :: 0 <= t < |threads| ==> ThreadOk(p, threads[t])
  }

  ghost predicate Conserved(s: State) {
    forall r :: r in s.pool.stats ==>
      var c := s.pool.stats[r];
      c.sent == c.ok + c.fail + Attempts(s.threads, r)
  }

  ghost predicate PoolInv(resolvers: seq<Resolver>, s: State) {
    && PoolModel.Run(New(resolvers), s.poolOps) == Some(s.pool)
    && Wf(s.pool) && s.pool.resolvers != []
    && ThreadsOk(s.pool, s.threads)
    && Conserved(s) && !s.crashed
  }

  /** Stats entries stay and successes are never uncounted. */
  ghost predicate Grows(p: PoolModel.Pool, q: PoolModel.Pool) {
    forall r :: r in p.stats ==> r in q.stats && p.stats[r].ok <= q.stats[r].ok
  }

  lemma PoolOpGrows(p: PoolModel.Pool, op: Op)
    requires Wf(p) && PoolModel.Enabled(p, op) && p.resolvers != [] && (op.Update? ==> op.ordered != [])
    ensures var q := PoolModel.Apply(p, op);
            Wf(q) && q.resolvers != [] && Grows(p, q)
  {
    hide Wf;
    ApplyKeepsWf(p, op);
    OpGrows(p, op);
  }

  lemma OpGrows(p: PoolModel.Pool, op: Op)
    requires Wf(p) && PoolModel.Enabled(p, op) && p.resolvers != [] && (op.Update? ==> op.ordered != [])
    ensures Grows(p, PoolModel.Apply(p, op)) && PoolModel.Apply(p, op).resolvers != []
  {
    hide Derived;
    if op.Probes? { ApplyProbesFrame(p, op.results); }
  }

  lemma ThreadsOkGrow(p: PoolModel.Pool, q: PoolModel.Pool, threads: seq<Thread>)
    requires ThreadsOk(p, threads) && Grows(p, q)
    ensures ThreadsOk(q, threads)
  {}

  // --- preservation

  /** A thread moves without touching the pool or an attempt. */
  lemma GotoKeeps(resolvers: seq<Resolver>, s: State, t: nat, th: Thread)
    requires PoolInv(resolvers, s) && t < |s.threads| && ThreadOk(s.pool, th)
    requires !s.threads[t].InFlight? && !th.InFlight?
    ensures PoolInv(resolvers, Goto(s, t, th))
  {
    forall r | r in s.pool.stats ensures Attempts(s.threads[t := th], r) == Attempts(s.threads, r) {
      AttemptsUpdate(s.threads, t, th, r);
    }
  }

  /** A thread moves together with the pool operation that accounts for its attempt. */
  lemma MarkKeeps(resolvers: seq<Resolver>, s: State, t: nat, th: Thread, op: Op)
    requires PoolInv(resolvers, s) && t < |s.threads| && PoolModel.Enabled(s.pool, op)
    requires op.Sent? || op.Failure? || (op.Success? && op.r in s.pool.stats)
    requires Flying(th, op.r) - Flying(s.threads[t], op.r) == if op.Sent? then 1 else -1
    requires s.threads[t].InFlight? ==> s.threads[t].r == op.r
    requires th.InFlight? ==> th.r == op.r
    requires ThreadOk(PoolModel.Apply(s.pool, op), th)
    ensures PoolInv(resolvers, Goto(WithPool(s, op), t, th))
  {
    hide Wf, PoolModel.Apply, PoolModel.Enabled, Conserved, ThreadsOk, ThreadOk, New;
    PoolOpGrows(s.pool, op);
    RunExtends(New(resolvers), s.poolOps, op);
    ThreadsOkGrow(s.pool, PoolModel.Apply(s.pool, op), s.threads);
    ThreadsOkUpdate(PoolModel.Apply(s.pool, op), s.threads, t, th);
    MarkConserves(s, t, th, op);
  }

  lemma ThreadsOkUpdate(p: PoolModel.Pool, threads: seq<Thread>, t: nat, th: Thread)
    requires ThreadsOk(p, threads) && t < |threads| && ThreadOk(p, th)
    ensures ThreadsOk(p, threads[t := th])
  {}

  lemma MarkConserves(s: State, t: nat, th: Thread, op: Op)
    requires Conserved(s) && Wf(s.pool) && ThreadsOk(s.pool, s.threads)
    requires t < |s.threads| && PoolModel.Enabled(s.pool, op)
    requires op.Sent? || op.Failure? || (op.Success? && op.r in s.pool.stats)
    requires Flying(th, op.r) - Flying(s.threads[t], op.r) == if op.Sent? then 1 else -1
    requires s.threads[t].InFlight? ==> s.threads[t].r == op.r
    requires th.InFlight? ==> th.r == op.r
    ensures Conserved(Goto(WithPool(s, op), t, th))
  {
    hide Wf, PoolModel.Apply, ThreadsOk;
    var q := PoolModel.Apply(s.pool, op);
    forall r | r in q.stats
      ensures q.stats[r].sent == q.stats[r].ok + q.stats[r].fail + Attempts(s.threads[t := th], r)
    {
      CountersAfter(s.pool, op, r);
      AttemptsUpdate(s.threads, t, th, r);
      if r !in s.pool.stats { UnknownNotFlying(s, r); }
    }
  }

  lemma UnknownNotFlying(s: State, r: Resolver)
    requires ThreadsOk(s.pool, s.threads) && r !in s.pool.stats
    ensures Attempts(s.threads, r) == 0
  {
    forall t | 0 <= t < |s.threads| ensures Flying(s.threads[t], r) == 0 { assert ThreadOk(s.pool, s.threads[t]); }
    NoneFlying(s.threads, r);
  }

  lemma EnvironmentKeeps(resolvers: seq<Resolver>, s: State, op: Op)
    requires PoolInv(resolvers, s) && FromOutside(s, op)
    ensures PoolInv(resolvers, WithPool(s, op))
  {
    hide Wf, PoolModel.Apply;
    PoolOpGrows(s.pool, op);
    RunExtends(New(resolvers), s.poolOps, op);
    var q := PoolModel.Apply(s.pool, op);
    ThreadsOkGrow(s.pool, q, s.threads);
    forall r | r in q.stats ensures q.stats[r].sent == q.stats[r].ok + q.stats[r].fail + Attempts(s.threads, r) {
      CountersAfter(s.pool, op, r);
      if r !in s.pool.stats { UnknownNotFlying(s, r); }
    }
  }

  /** Changes that PoolInv does not look at. */
  lemma Elsewhere(resolvers: seq<Resolver>, s: State, t: State)
    requires PoolInv(resolvers, s)
    requires t.pool == s.pool && t.poolOps == s.poolOps && t.threads == s.threads && t.crashed == s.crashed
    ensures PoolInv(resolvers, t)
  {}

  lemma ArriveKeeps(resolvers: seq<Resolver>, s: State, query: Message)
    requires PoolInv(resolvers, s)
    ensures PoolInv(resolvers, s.(threads := s.threads + [AtCache(query)]))
  {
    forall r | r in s.pool.stats ensures Attempts(s.threads + [AtCache(query)], r) == Attempts(s.threads, r) {
      assert (s.threads + [AtCache(query)])[..|s.threads|] == s.threads;
    }
  }

  /** The loads of GetNext: the rate stays in [0, 1] because ok is loaded before sent. */
  lemma LoadsKeep(resolvers: seq<Resolver>, unpack: Unpacker, s: State, a: Action)
    requires PoolInv(resolvers, s) && Enabled(s, a)
    requires a.TakeSnapshot? || a.LoadOk? || a.LoadSent? || a.LoadLatency? || a.Choose?
    ensures PoolInv(resolvers, Apply(unpack, s, a))
  {
    hide PoolInv, Wf, Pool.Rate, Pool.ScoreFrom;
    PoolIsWf(resolvers, s);
    ThreadIsOk(resolvers, s, a.t);
    CacheHasStats(s.pool);
    var th := s.threads[a.t];
    if a.LoadLatency? {
      Pool.RateInUnit(th.ok, th.sent);
      Pool.ScoreNonNegative(Pool.Rate(th.ok, th.sent), s.pool.stats[th.r].latency);
    }
    if a.LoadOk? { assert th.search.snapshot[a.pick] in th.search.snapshot; }
    GotoKeeps(resolvers, s, a.t, Apply(unpack, s, a).threads[a.t]);
  }

  lemma PoolIsWf(resolvers: seq<Resolver>, s: State)
    requires PoolInv(resolvers, s)
    ensures Wf(s.pool) && s.pool.resolvers != [] && Conserved(s) && !s.crashed
  {}

  lemma MarksKeep(resolvers: seq<Resolver>, unpack: Unpacker, s: State, a: Action)
    requires PoolInv(resolvers, s) && Enabled(s, a)
    requires a.Send? || a.Fail? || a.Succeed?
    ensures PoolInv(resolvers, Apply(unpack, s, a))
  {
    hide PoolInv, Apply;
    match a
    case Send(t) => SendKeeps(resolvers, unpack, s, t);
    case Fail(t) => FailKeeps(resolvers, unpack, s, t);
    case Succeed(t, response, latency) => SucceedKeeps(resolvers, unpack, s, t, response, latency);
  }

  lemma ThreadIsOk(resolvers: seq<Resolver>, s: State, t: nat)
    requires PoolInv(resolvers, s) && t < |s.threads|
    ensures ThreadOk(s.pool, s.threads[t])
  {}

  lemma SendKeeps(resolvers: seq<Resolver>, unpack: Unpacker, s: State, t: nat)
    requires PoolInv(resolvers, s) && Enabled(s, Send(t))
    ensures PoolInv(resolvers, Apply(unpack, s, Send(t)))
  {
    hide Wf, Conserved, Attempts;
    ThreadIsOk(resolvers, s, t);
    var th := s.threads[t];
    if th.failed == Some(th.r) {
      GotoKeeps(resolvers, s, t, Finished);
    } else {
      OpGrows(s.pool, Sent(th.r));
      MarkKeeps(resolvers, s, t, InFlight(th.query, th.failed, th.r), Sent(th.r));
    }
  }

  lemma FailKeeps(resolvers: seq<Resolver>, unpack: Unpacker, s: State, t: nat)
    requires PoolInv(resolvers, s) && Enabled(s, Fail(t))
    ensures PoolInv(resolvers, Apply(unpack, s, Fail(t)))
  {
    hide PoolInv, PoolModel.Apply;
    ThreadIsOk(resolvers, s, t);
    var th := s.threads[t];
    var next := if th.failed.None? then NeedsResolver(th.query, Some(th.r)) else Finished;
    MarkKeeps(resolvers, s, t, next, Failure(th.r));
  }

  lemma SucceedKeeps(resolvers: seq<Resolver>, unpack: Unpacker, s: State, t: nat, response: Message, latency: int)
    requires PoolInv(resolvers, s) && Enabled(s, Succeed(t, response, latency))
    ensures PoolInv(resolvers, Apply(unpack, s, Succeed(t, response, latency)))
  {
    hide PoolInv, PoolModel.Apply;
    ThreadIsOk(resolvers, s, t);
    var th := s.threads[t];
    var s1 := s.(upstream := s.upstream + {(th.query, response)});
    Elsewhere(resolvers, s, s1);
    MarkKeeps(resolvers, s1, t, Answered(th.query, response), Success(th.r, latency));
  }

  lemma MovesKeep(resolvers: seq<Resolver>, unpack: Unpacker, s: State, a: Action)
    requires PoolInv(resolvers, s) && Enabled(s, a)
    requires a.LookUp? || a.Respond?
    ensures PoolInv(resolvers, Apply(unpack, s, a))
  {
    hide C.Step, C.Reply;
    var t := Apply(unpack, s, a);
    GotoKeeps(resolvers, s, a.t, t.threads[a.t]);
    Elsewhere(resolvers, Goto(s, a.t, t.threads[a.t]), t);
  }

  lemma StepKeepsPoolInv(resolvers: seq<Resolver>, unpack: Unpacker, s: State, a: Action)
    requires PoolInv(resolvers, s) && Enabled(s, a)
    ensures PoolInv(resolvers, Apply(unpack, s, a))
  {
    match a
    case Arrive(query) => ArriveKeeps(resolvers, s, query);
    case Tick(later) => Elsewhere(resolvers, s, s.(now := later));
    case Environment(op) => EnvironmentKeeps(resolvers, s, op);
    case LookUp(_) => MovesKeep(resolvers, unpack, s, a);
    case Respond(_) => MovesKeep(resolvers, unpack, s, a);
    case Send(_) => MarksKeep(resolvers, unpack, s, a);
    case Fail(_) => MarksKeep(resolvers, unpack, s, a);
    case Succeed(_, _, _) => MarksKeep(resolvers, unpack, s, a);
    case TakeSnapshot(_) => LoadsKeep(resolvers, unpack, s, a);
    case LoadOk(_, _) => LoadsKeep(resolvers, unpack, s, a);
    case LoadSent(_) => LoadsKeep(resolvers, unpack, s, a);
    case LoadLatency(_) => LoadsKeep(resolvers, unpack, s, a);
    case Choose(_) => LoadsKeep(resolvers, unpack, s, a);
  }

  lemma {:induction false} RunKeepsPoolInv(resolvers: seq<Resolver>, unpack: Unpacker, s: State, acts: seq<Action>,
                                           t: State)
    requires PoolInv(resolvers, s) && Run(unpack, s, acts, t)
    ensures PoolInv(resolvers, t)
    decreases |acts|
  {
    hide PoolInv;
    if acts != [] {
      StepKeepsPoolInv(resolvers, unpack, s, acts[0]);
      RunKeepsPoolInv(resolvers, unpack, Apply(unpack, s, acts[0]), acts[1..], t);
    }
  }

  lemma InitPoolInv(resolvers: seq<Resolver>, cacheOn: bool, maxSize: int, now: int)
    requires resolvers != []
    ensures PoolInv(resolvers, Init(resolvers, cacheOn, maxSize, now))
  {
    NewIsWf(resolvers);
  }

  // --- the guarantees

  /** The states of any interleaving of a service started with a non-empty list. */
  ghost predicate Reachable(resolvers: seq<Resolver>, unpack: Unpacker, cacheOn: bool, maxSize: int, now: int,
                            acts: seq<Action>, t: State) {
    resolvers != [] && Run(unpack, Init(resolvers, cacheOn, maxSize, now), acts, t)
  }

  /** Counter conservation: across all concurrent attempts, health checks and list replacements
      each resolver keeps sent = ok + fail + attempts in flight. */
  lemma CountersAreConserved(resolvers: seq<Resolver>, unpack: Unpacker, cacheOn: bool, maxSize: int, now: int,
                             acts: seq<Action>, t: State, r: Resolver)
    requires Reachable(resolvers, unpack, cacheOn, maxSize, now, acts, t) && r in t.pool.stats
    ensures t.pool.stats[r].sent == t.pool.stats[r].ok + t.pool.stats[r].fail + Attempts(t.threads, r)
  {
    InitPoolInv(resolvers, cacheOn, maxSize, now);
    RunKeepsPoolInv(resolvers, unpack, Init(resolvers, cacheOn, maxSize, now), acts, t);
  }

  /** Every success rate GetNext ever computes lies in [0, 1], whatever ran between its loads. */
  lemma RatesAreRates(resolvers: seq<Resolver>, unpack: Unpacker, cacheOn: bool, maxSize: int, now: int,
                      acts: seq<Action>, t: State)
    requires Reachable(resolvers, unpack, cacheOn, maxSize, now, acts, t)
    ensures forall i :: 0 <= i < |t.threads| && t.threads[i].LoadedSent? ==>
              t.threads[i].ok <= t.threads[i].sent && 0.0 <= Pool.Rate(t.threads[i].ok, t.threads[i].sent) <= 1.0
  {
    InitPoolInv(resolvers, cacheOn, maxSize, now);
    RunKeepsPoolInv(resolvers, unpack, Init(resolvers, cacheOn, maxSize, now), acts, t);
    forall i | 0 <= i < |t.threads| && t.threads[i].LoadedSent?
      ensures t.threads[i].ok <= t.threads[i].sent && 0.0 <= Pool.Rate(t.threads[i].ok, t.threads[i].sent) <= 1.0
    {
      assert ThreadOk(t.pool, t.threads[i]);
      Pool.RateInUnit(t.threads[i].ok, t.threads[i].sent);
    }
  }

  /** Stale snapshots are safe: no interleaving reaches a missing stats entry, an empty list to
      draw from or a search without a result, and the list of resolvers is never empty. */
  lemma NothingCrashes(resolvers: seq<Resolver>, unpack: Unpacker, cacheOn: bool, maxSize: int, now: int,
                       acts: seq<Action>, t: State)
    requires Reachable(resolvers, unpack, cacheOn, maxSize, now, acts, t)
    ensures !t.crashed && t.pool.resolvers != [] && t.pool.healthyCache == Derived(t.pool.resolvers, t.pool.healthy)
    ensures forall i :: 0 <= i < |t.threads| && (t.threads[i].Chosen? || t.threads[i].InFlight?) ==>
              t.threads[i].r in t.pool.stats
  {
    InitPoolInv(resolvers, cacheOn, maxSize, now);
    RunKeepsPoolInv(resolvers, unpack, Init(resolvers, cacheOn, maxSize, now), acts, t);
    forall i | 0 <= i < |t.threads| && (t.threads[i].Chosen? || t.threads[i].InFlight?)
      ensures t.threads[i].r in t.pool.stats
    {
      assert ThreadOk(t.pool, t.threads[i]);
    }
  }

  /** The pool of a concurrent run is the pool after the sequence of its critical sections, so
      the theorems of PoolModel hold of it: here, that health is a function of the history. */
  lemma ConcurrentHealthIsHistory(resolvers: seq<Resolver>, unpack: Unpacker, cacheOn: bool, maxSize: int, now: int,
                                  acts: seq<Action>, t: State, r: Resolver)
    requires Reachable(resolvers, unpack, cacheOn, maxSize, now, acts, t) && r in t.pool.stats
    ensures Runs(New(resolvers), t.poolOps) && After(New(resolvers), t.poolOps) == t.pool
    ensures var recent := SinceReset(History(t.poolOps, r));
            (!IsHealthy(t.pool, r) <==> Probed(false) in recent || Failures(recent) >= 10)
            && (IsHealthy(t.pool, r) ==> Streak(t.pool, r) < 10)
  {
    InitPoolInv(resolvers, cacheOn, maxSize, now);
    RunKeepsPoolInv(resolvers, unpack, Init(resolvers, cacheOn, maxSize, now), acts, t);
    HealthIsHistory(resolvers, t.poolOps, r);
  }

  // --- where the bytes of a reply come from

  ghost predicate WrittenOk(unpack: Unpacker, s: State, w: Written) {
    match w.fromGet
    case None => (w.query, w.bytes) in s.upstream
    case Some(i) =>
      && s.cacheOn && i < |s.cacheOps| && s.cacheOps[i].Get? && s.cacheOps[i].query == w.query
      && C.Reply(unpack, C.Run(unpack, s.cacheOps[..i], s.maxSize), s.cacheOps[i]) == Some(w.bytes)
  }

  ghost predicate CacheInv(unpack: Unpacker, s: State) {
    && s.cache == C.Run(unpack, s.cacheOps, s.maxSize)
    && (forall i :: 0 <= i < |s.cacheOps| && s.cacheOps[i].Put? ==>
          (s.cacheOps[i].query, s.cacheOps[i].response) in s.upstream)
    && (forall t :: 0 <= t < |s.threads| && s.threads[t].Answered? ==>
          (s.threads[t].query, s.threads[t].response) in s.upstream)
    && (forall j :: 0 <= j < |s.written| ==> WrittenOk(unpack, s, s.written[j]))
  }

  lemma WithCacheKeeps(unpack: Unpacker, s: State, op: C.Op)
    requires CacheInv(unpack, s) && (op.Put? ==> (op.query, op.response) in s.upstream)
    ensures CacheInv(unpack, WithCache(s, unpack, op))
  {
    hide C.Step, C.Reply;
    C.RunSnoc(unpack, s.cacheOps, op, s.maxSize);
    var t := WithCache(s, unpack, op);
    forall j | 0 <= j < |t.written| ensures WrittenOk(unpack, t, t.written[j]) {
      assert WrittenOk(unpack, s, s.written[j]);
      var w := s.written[j];
      if w.fromGet.Some? { assert t.cacheOps[..w.fromGet.value] == s.cacheOps[..w.fromGet.value]; }
    }
  }

  lemma LookUpKeeps(unpack: Unpacker, s: State, t: nat)
    requires CacheInv(unpack, s) && Enabled(s, LookUp(t))
    ensures CacheInv(unpack, Apply(unpack, s, LookUp(t)))
  {
    hide C.Step, C.Reply, C.Run;
    if s.cacheOn {
      var get := C.Get(s.now, s.threads[t].query);
      WithCacheKeeps(unpack, s, get);
      var u := Apply(unpack, s, LookUp(t));
      assert u.cacheOps[..|s.cacheOps|] == s.cacheOps;
      forall j | 0 <= j < |u.written| ensures WrittenOk(unpack, u, u.written[j]) {
        if j < |s.written| { assert WrittenOk(unpack, WithCache(s, unpack, get), s.written[j]); }
      }
    }
  }

  lemma RespondKeeps(unpack: Unpacker, s: State, t: nat)
    requires CacheInv(unpack, s) && Enabled(s, Respond(t))
    ensures CacheInv(unpack, Apply(unpack, s, Respond(t)))
  {
    hide C.Step, C.Reply, C.Run;
    var th := s.threads[t];
    var put := C.Put(s.now, th.query, th.response);
    WithCacheKeeps(unpack, s, put);
    var u := Apply(unpack, s, Respond(t));
    forall j | 0 <= j < |u.written| ensures WrittenOk(unpack, u, u.written[j]) {
      if j < |s.written| {
        assert WrittenOk(unpack, s, s.written[j]) && WrittenOk(unpack, WithCache(s, unpack, put), s.written[j]);
      }
    }
  }

  lemma StepKeepsCacheInv(unpack: Unpacker, s: State, a: Action)
    requires CacheInv(unpack, s) && Enabled(s, a)
    ensures CacheInv(unpack, Apply(unpack, s, a))
  {
    if a.LookUp? {
      LookUpKeeps(unpack, s, a.t);
    } else if a.Respond? {
      RespondKeeps(unpack, s, a.t);
    } else {
      OtherStepKeepsCacheInv(unpack, s, a);
    }
  }

  lemma OtherStepKeepsCacheInv(unpack: Unpacker, s: State, a: Action)
    requires CacheInv(unpack, s) && Enabled(s, a) && !a.LookUp? && !a.Respond?
    ensures CacheInv(unpack, Apply(unpack, s, a))
  {
    hide CacheInv, Apply;
    match a
    case Arrive(_) => OutsideKeepsCacheInv(unpack, s, a);
    case Tick(_) => OutsideKeepsCacheInv(unpack, s, a);
    case Environment(_) => OutsideKeepsCacheInv(unpack, s, a);
    case Send(_) => MarkKeepsCacheInv(unpack, s, a);
    case Fail(_) => MarkKeepsCacheInv(unpack, s, a);
    case Succeed(_, _, _) => MarkKeepsCacheInv(unpack, s, a);
    case _ => LoadKeepsCacheInv(unpack, s, a);
  }

  lemma OutsideKeepsCacheInv(unpack: Unpacker, s: State, a: Action)
    requires CacheInv(unpack, s) && Enabled(s, a) && (a.Arrive? || a.Tick? || a.Environment?)
    ensures CacheInv(unpack, Apply(unpack, s, a))
  {
    hide CacheInv, PoolModel.Apply, PoolModel.Enabled;
    SameCacheKeeps(unpack, s, Apply(unpack, s, a));
  }

  lemma MarkKeepsCacheInv(unpack: Unpacker, s: State, a: Action)
    requires CacheInv(unpack, s) && Enabled(s, a) && (a.Send? || a.Fail? || a.Succeed?)
    ensures CacheInv(unpack, Apply(unpack, s, a))
  {
    hide CacheInv, PoolModel.Apply, PoolModel.Enabled;
    SameCacheKeeps(unpack, s, Apply(unpack, s, a));
  }

  lemma LoadKeepsCacheInv(unpack: Unpacker, s: State, a: Action)
    requires CacheInv(unpack, s) && Enabled(s, a)
    requires a.TakeSnapshot? || a.LoadOk? || a.LoadSent? || a.LoadLatency? || a.Choose?
    ensures CacheInv(unpack, Apply(unpack, s, a))
  {
    hide CacheInv, Pool.Rate, Pool.ScoreFrom;
    SameCacheKeeps(unpack, s, Apply(unpack, s, a));
  }

  /** No thread has an answer that was not heard from an upstream, and the cache is untouched. */
  lemma SameCacheKeeps(unpack: Unpacker, s: State, u: State)
    requires CacheInv(unpack, s)
    requires u.cacheOn == s.cacheOn && u.maxSize == s.maxSize && u.cache == s.cache && u.cacheOps == s.cacheOps
    requires u.written == s.written && s.upstream <= u.upstream
    requires forall t :: 0 <= t < |u.threads| && u.threads[t].Answered? ==>
               || (u.threads[t].query, u.threads[t].response) in u.upstream
               || (t < |s.threads| && u.threads[t] == s.threads[t])
    ensures CacheInv(unpack, u)
  {
    hide C.Reply, C.Run;
    forall j | 0 <= j < |u.written| ensures WrittenOk(unpack, u, u.written[j]) {
      assert WrittenOk(unpack, s, s.written[j]);
    }
  }

  lemma {:induction false} RunKeepsCacheInv(unpack: Unpacker, s: State, acts: seq<Action>, t: State)
    requires CacheInv(unpack, s) && Run(unpack, s, acts, t)
    ensures CacheInv(unpack, t)
    decreases |acts|
  {
    hide CacheInv;
    if acts != [] {
      StepKeepsCacheInv(unpack, s, acts[0]);
      RunKeepsCacheInv(unpack, Apply(unpack, s, acts[0]), acts[1..], t);
    }
  }

  /** Proxy transparency over whole runs: every reply written is an upstream response.  A reply
      that was not cached is the response to that very query.  A cached one is, except for the
      ID, the bytes of the latest response stored for the same lower-cased name, type and class,
      which an upstream sent for a query with that key, within its least TTL. */
  lemma RepliesAreUpstreamResponses(resolvers: seq<Resolver>, unpack: Unpacker, cacheOn: bool, maxSize: int, now: int,
                                    acts: seq<Action>, t: State, w: Written)
    requires Reachable(resolvers, unpack, cacheOn, maxSize, now, acts, t) && w in t.written
    ensures match w.fromGet
            case None => (w.query, w.bytes) in t.upstream
            case Some(i) => exists j: nat ::
              && C.Explains(unpack, t.cacheOps, i, w.bytes, j)
              && t.cacheOps[i].query == w.query
              && (t.cacheOps[j].query, t.cacheOps[j].response) in t.upstream
  {
    RunKeepsCacheInv(unpack, Init(resolvers, cacheOn, maxSize, now), acts, t);
    assert WrittenOk(unpack, t, w);
    if w.fromGet.Some? {
      var i := w.fromGet.value;
      C.HitsAreExplained(unpack, t.cacheOps, i, t.maxSize);
      var j: nat :| C.Explains(unpack, t.cacheOps, i, w.bytes, j);
      assert t.cacheOps[j].Put?;
    }
  }
}

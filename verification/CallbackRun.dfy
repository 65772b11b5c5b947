/**
 * That down events happen: a run from the start of the service in which ten queries in a row fail
 * and the callback is captured.
 */
module CallbackRun {
  import opened Options
  import opened Dns
  import P = PoolModel
  import F = Forwarding
  import R = Rescan
  import D = DownEvents
  import Q = SingleQuery
  import Proxy

  /** A run of the threads is one of both systems. */
  lemma {:induction false} LiftRun(unpack: Unpacker, s: D.State, acts: seq<F.Action>, u: F.State)
    returns (lifted: seq<D.Action>, t: D.State)
    requires F.Run(unpack, s.service, acts, u)
    ensures D.Run(unpack, s, lifted, t) && t.service == u
    decreases |acts|
  {
    hide F.Apply, F.Enabled;
    if acts == [] {
      lifted, t := [], s;
    } else {
      var s' := D.Apply(unpack, s, D.Service(acts[0]));
      var more;
      more, t := LiftRun(unpack, s', acts[1..], u);
      lifted := [D.Service(acts[0])] + more;
      assert lifted[1..] == more;
    }
  }

  /** The pool after `k` failures of its only resolver. */
  ghost predicate Failed(p: P.Pool, r: P.Resolver, k: nat) {
    && P.Wf(p) && p.resolvers == [r] && r in p.stats && p.hasCallback
    && P.Streak(p, r) == k && (P.IsHealthy(p, r) <==> k < 10)
  }

  lemma OnlyCandidate(p: P.Pool, r: P.Resolver, k: nat)
    requires Failed(p, r, k)
    ensures r in p.healthyCache
  {
    P.CacheHasStats(p);
    assert p.healthyCache[0] in p.healthyCache;
  }

  lemma FailsOnce(p: P.Pool, r: P.Resolver, k: nat)
    requires Failed(p, r, k)
    ensures var q := P.Apply(P.Apply(p, P.Sent(r)), P.Failure(r));
            Failed(q, r, k + 1) && (k == 9 ==> D.TakesDownWithCallback(P.Apply(p, P.Sent(r)), P.Failure(r)))
  {
    P.ApplyKeepsWf(p, P.Sent(r));
    P.ApplyKeepsWf(P.Apply(p, P.Sent(r)), P.Failure(r));
    hide P.Derived;
  }

  /** One query whose attempt fails. */
  lemma FailRun(unpack: Unpacker, s: F.State, r: P.Resolver, k: nat) returns (acts: seq<F.Action>, u: F.State)
    requires !s.crashed && !s.cacheOn && Failed(s.pool, r, k)
    ensures F.Run(unpack, s, acts, u) && !u.crashed && !u.cacheOn && Failed(u.pool, r, k + 1)
    ensures u.poolOps == s.poolOps + [P.Sent(r), P.Failure(r)]
  {
    hide F.Run, P.Run, P.Apply, P.Wf, Failed;
    var t := |s.threads|;
    Q.EmptyRun(unpack, s);
    Q.RunThen(unpack, s, [], s, F.Arrive([]));
    var s1 := F.Apply(unpack, s, F.Arrive([]));
    Q.RunThen(unpack, s, [] + [F.Arrive([])], s1, F.LookUp(t));
    var s2 := F.Apply(unpack, s1, F.LookUp(t));
    assert F.Goto(s2, t, F.NeedsResolver([], None)) == s2;
    FailedFacts(s.pool, r, k);
    OnlyCandidate(s.pool, r, k);
    var more := Q.AttemptRun(unpack, s2, t, [], None, r, Proxy.NoReply);
    var ops := [P.Sent(r), Proxy.Mark(r, Proxy.NoReply)];
    u := F.Goto(Q.After(s2, ops), t, F.NeedsResolver([], Some(r)));
    Q.RunConcat(unpack, s, [] + [F.Arrive([])] + [F.LookUp(t)], s2, more, u);
    acts := [] + [F.Arrive([])] + [F.LookUp(t)] + more;
    FailsOnce(s.pool, r, k);
    Proxy.EmptyRun(s.pool);
    Proxy.AttemptAddsUp(s.pool, [], r, Proxy.NoReply);
    assert [] + ops == ops;
  }

  lemma FailedFacts(p: P.Pool, r: P.Resolver, k: nat)
    requires Failed(p, r, k)
    ensures P.Wf(p) && r in p.stats
  {}

  function Failures(r: P.Resolver, k: nat): seq<P.Op> {
    if k == 0 then [] else Failures(r, k - 1) + [P.Sent(r), P.Failure(r)]
  }

  lemma {:induction false} FailRuns(unpack: Unpacker, s: F.State, r: P.Resolver, k: nat)
    returns (acts: seq<F.Action>, u: F.State)
    requires !s.crashed && !s.cacheOn && Failed(s.pool, r, 0)
    ensures F.Run(unpack, s, acts, u) && !u.crashed && !u.cacheOn && Failed(u.pool, r, k)
    ensures u.poolOps == s.poolOps + Failures(r, k)
  {
    hide F.Run, Failed;
    if k == 0 {
      Q.EmptyRun(unpack, s);
      acts, u := [], s;
    } else {
      var first, m := FailRuns(unpack, s, r, k - 1);
      var last;
      last, u := FailRun(unpack, m, r, k - 1);
      Q.RunConcat(unpack, s, first, m, last, u);
      acts := first + last;
    }
  }

  /** The tenth failure is a down event. */
  lemma TenthIsDown(start: P.Pool, ops: seq<P.Op>, r: P.Resolver)
    requires P.Runs(start, ops) && Failed(P.After(start, ops), r, 9)
    ensures P.Runs(start, ops + [P.Sent(r), P.Failure(r)])
    ensures D.DownAt(start, ops + [P.Sent(r), P.Failure(r)]) != []
  {
    hide P.Run, P.Apply, P.Wf, Failed, D.TakesDownWithCallback;
    var p := P.After(start, ops);
    FailedFacts(p, r, 9);
    FailsOnce(p, r, 9);
    P.RunExtends(start, ops, P.Sent(r));
    P.ApplyKeepsWf(p, P.Sent(r));
    D.DownAtSnoc(start, ops, P.Sent(r));
    var once := ops + [P.Sent(r)];
    D.DownAtSnoc(start, once, P.Failure(r));
    assert once + [P.Failure(r)] == ops + [P.Sent(r), P.Failure(r)];
  }

  /** From the start, with a callback set: a run that captures it. */
  lemma CallbackIsCaptured(unpack: Unpacker, r: P.Resolver) returns (acts: seq<D.Action>, t: D.State)
    ensures D.Reachable([r], unpack, false, 0, 0, acts, t) && t.scanner.callbacks != []
  {
    hide F.Run, Failed, D.DownAt;
    var s := F.Init([r], false, 0, 0);
    Q.EmptyRun(unpack, s);
    Q.RunThen(unpack, s, [], s, F.Environment(P.SetCallback(true)));
    var s1 := F.Apply(unpack, s, F.Environment(P.SetCallback(true)));
    NoneFailed(r);
    var nine, s2 := FailRuns(unpack, s1, r, 9);
    var last, s3 := FailRun(unpack, s2, r, 9);
    Q.RunConcat(unpack, s, [] + [F.Environment(P.SetCallback(true))], s1, nine, s2);
    var before := [] + [F.Environment(P.SetCallback(true))] + nine;
    HistoryAfter(unpack, r, before, s2);
    TenthIsDown(P.New([r]), s2.poolOps, r);
    Q.RunConcat(unpack, s, before, s2, last, s3);
    acts, t := LiftRun(unpack, D.State(s, R.INIT), before + last, s3);
    D.NoDownEventIsLost([r], unpack, false, 0, 0, acts, t);
  }

  lemma NoneFailed(r: P.Resolver)
    ensures Failed(P.Apply(P.New([r]), P.SetCallback(true)), r, 0)
  {
    P.NewIsWf([r]);
    P.ApplyKeepsWf(P.New([r]), P.SetCallback(true));
  }

  lemma HistoryAfter(unpack: Unpacker, r: P.Resolver, acts: seq<F.Action>, s: F.State)
    requires F.Run(unpack, F.Init([r], false, 0, 0), acts, s)
    ensures P.Runs(P.New([r]), s.poolOps) && P.After(P.New([r]), s.poolOps) == s.pool
  {
    hide F.Run;
    F.InitPoolInv([r], false, 0, 0);
    F.RunKeepsPoolInv([r], unpack, F.Init([r], false, 0, 0), acts, s);
  }
}

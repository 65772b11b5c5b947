/**
 * The derived state of the pool as a function of its history: which resolvers the list holds,
 * which of them can be drawn, what the counters count and whether a callback is set.
 */
module PoolHistory {
  import opened Options
  import opened PoolModel
  import opened Filters

  const SAME := (r: Resolver) => r

  /** The list that was installed last. */
  function Listed(resolvers: seq<Resolver>, ops: seq<Op>): seq<Resolver> {
    if ops == [] then resolvers
    else if ops[|ops| - 1].Update? then ops[|ops| - 1].ordered
    else Listed(resolvers, ops[..|ops| - 1])
  }

  lemma {:induction false} HealthyOfFilters(resolvers: seq<Resolver>, healthy: map<Resolver, bool>)
    ensures Filtered(resolvers, HealthyOf(resolvers, healthy), r => r in healthy && healthy[r], SAME)
  {
    var up := r => r in healthy && healthy[r];
    if resolvers == [] {
      FilterNone(up, SAME);
    } else {
      var before, last := resolvers[..|resolvers| - 1], resolvers[|resolvers| - 1];
      HealthyOfFilters(before, healthy);
      FilterSnoc(before, HealthyOf(before, healthy), up, SAME, last);
      assert before + [last] == resolvers;
    }
  }

  lemma ListAfter(p: Pool, op: Op)
    requires Wf(p) && Enabled(p, op)
    ensures Apply(p, op).resolvers == if op.Update? then op.ordered else p.resolvers
    ensures Apply(p, op).hasCallback == if op.SetCallback? then op.present else p.hasCallback
  {
    hide Derived;
    if op.Probes? { ApplyProbesFrame(p, op.results); }
  }

  lemma {:induction false} ListIsLastInstalled(resolvers: seq<Resolver>, ops: seq<Op>)
    requires Runs(New(resolvers), ops)
    ensures After(New(resolvers), ops).resolvers == Listed(resolvers, ops)
  {
    if ops != [] {
      var before := ops[..|ops| - 1];
      ListIsLastInstalled(resolvers, before);
      RunKeepsWf(resolvers, before);
      ListAfter(After(New(resolvers), before), ops[|ops| - 1]);
    }
  }

  /** The resolver is up: since its last success or live probe it had neither a dead probe nor ten
      failures. */
  ghost predicate Up(ops: seq<Op>, r: Resolver) {
    var recent := SinceReset(History(ops, r));
    Probed(false) !in recent && Failures(recent) < 10
  }

  /** What can be drawn, over runs: if some listed resolver is up, healthyCache is exactly the
      listed resolvers that are up, in list order; otherwise it is the whole list. */
  lemma HealthyCacheIsWhatIsUp(resolvers: seq<Resolver>, ops: seq<Op>)
    requires Runs(New(resolvers), ops)
    ensures var cache, list := After(New(resolvers), ops).healthyCache, Listed(resolvers, ops);
            if exists k :: 0 <= k < |list| && Up(ops, list[k]) then Filtered(list, cache, r => Up(ops, r), SAME)
            else cache == list
  {
    hide Up;
    var p, list := After(New(resolvers), ops), Listed(resolvers, ops);
    var up := r => r in p.healthy && p.healthy[r];
    RunKeepsWf(resolvers, ops);
    ListIsLastInstalled(resolvers, ops);
    HealthyOfFilters(list, p.healthy);
    forall k | 0 <= k < |list| ensures up(list[k]) == Up(ops, list[k]) { UpIsHealthy(resolvers, ops, list[k]); }
    FilterSame(list, HealthyOf(list, p.healthy), up, r => Up(ops, r), SAME);
    FilterEmpty(list, HealthyOf(list, p.healthy), up, SAME);
  }

  lemma UpIsHealthy(resolvers: seq<Resolver>, ops: seq<Op>, r: Resolver)
    requires Runs(New(resolvers), ops) && r in After(New(resolvers), ops).resolvers
    ensures Up(ops, r) <==> IsHealthy(After(New(resolvers), ops), r)
  {
    RunKeepsWf(resolvers, ops);
    HealthIsHistory(resolvers, ops, r);
  }

  /** So a down resolver is never drawn while a listed one is up. */
  lemma NothingDownIsDrawn(resolvers: seq<Resolver>, ops: seq<Op>, r: Resolver)
    requires Runs(New(resolvers), ops) && r in After(New(resolvers), ops).healthyCache
    ensures r in Listed(resolvers, ops)
    ensures (exists x :: x in Listed(resolvers, ops) && Up(ops, x)) ==> Up(ops, r)
  {
    hide Up;
    HealthyCacheIsWhatIsUp(resolvers, ops);
    var cache, list := After(New(resolvers), ops).healthyCache, Listed(resolvers, ops);
    if exists k :: 0 <= k < |list| && Up(ops, list[k]) { FilterHolds(list, cache, x => Up(ops, x), SAME); }
  }

  // --- counters and callback

  function Times(ops: seq<Op>, op: Op): nat {
    if ops == [] then 0 else Times(ops[..|ops| - 1], op) + if ops[|ops| - 1] == op then 1 else 0
  }

  /** The counters count: sends, failures, and the successes since the resolver was first listed. */
  lemma {:induction false} CountersCount(resolvers: seq<Resolver>, ops: seq<Op>, r: Resolver)
    requires Runs(New(resolvers), ops)
    ensures var stats := After(New(resolvers), ops).stats;
            if r in stats then
              && stats[r].sent == Times(ops, Sent(r)) && stats[r].fail == Times(ops, Failure(r))
              && stats[r].ok == |Samples(New(resolvers), ops, r)|
            else Times(ops, Sent(r)) == 0 && Times(ops, Failure(r)) == 0 && Samples(New(resolvers), ops, r) == []
  {
    hide Apply, Wf;
    if ops != [] {
      var before, op := ops[..|ops| - 1], ops[|ops| - 1];
      CountersCount(resolvers, before, r);
      RunKeepsWf(resolvers, before);
      ApplyKeepsWf(After(New(resolvers), before), op);
      if r in After(New(resolvers), ops).stats { CountersAfter(After(New(resolvers), before), op, r); }
    }
  }

  function LastSet(ops: seq<Op>): bool {
    if ops == [] then false
    else if ops[|ops| - 1].SetCallback? then ops[|ops| - 1].present
    else LastSet(ops[..|ops| - 1])
  }

  /** A callback is set exactly if the last registration set one; nothing else touches it. */
  lemma {:induction false} CallbackIsLastSet(resolvers: seq<Resolver>, ops: seq<Op>)
    requires Runs(New(resolvers), ops)
    ensures After(New(resolvers), ops).hasCallback == LastSet(ops)
  {
    if ops != [] {
      var before := ops[..|ops| - 1];
      CallbackIsLastSet(resolvers, before);
      RunKeepsWf(resolvers, before);
      ListAfter(After(New(resolvers), before), ops[|ops| - 1]);
    }
  }
}

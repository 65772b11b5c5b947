/**
 * ResolverPool of pool.go as a value: what each operation does to the state it guards with
 * its lock, and theorems about every sequence of operations.  The class in Pool.dfy refines
 * these operations; Forwarding.dfy interleaves them.
 */
module PoolModel {
  import opened Options
  import Latency

  datatype Resolver = Resolver(addr: string, url: string)

  /** resolverStats; latency in nanoseconds. */
  datatype Stats = Stats(sent: nat, ok: nat, fail: nat, latency: int)

  const FRESH := Stats(0, 0, 0, 0)

  datatype Pool = Pool(resolvers: seq<Resolver>, healthy: map<Resolver, bool>, healthyCache: seq<Resolver>,
                       stats: map<Resolver, Stats>, failStreak: map<Resolver, nat>, hasCallback: bool)

  // Go reads a missing map entry as the zero value.

  predicate IsHealthy(p: Pool, r: Resolver) {
    r in p.healthy && p.healthy[r]
  }

  function Streak(p: Pool, r: Resolver): nat {
    if r in p.failStreak then p.failStreak[r] else 0
  }

  /** The healthy resolvers in list order. */
  function HealthyOf(resolvers: seq<Resolver>, healthy: map<Resolver, bool>): seq<Resolver> {
    if resolvers == [] then []
    else
      var last := resolvers[|resolvers| - 1];
      HealthyOf(resolvers[..|resolvers| - 1], healthy) + if last in healthy && healthy[last] then [last] else []
  }

  /** What healthyCache must be: the healthy resolvers in list order, or all if none is healthy. */
  function Derived(resolvers: seq<Resolver>, healthy: map<Resolver, bool>): seq<Resolver> {
    var up := HealthyOf(resolvers, healthy);
    if up == [] then resolvers else up
  }

  function Rebuild(p: Pool): Pool {
    p.(healthyCache := Derived(p.resolvers, p.healthy))
  }

  function New(resolvers: seq<Resolver>): Pool {
    Pool(resolvers, map r | r in resolvers :: true, resolvers, map r | r in resolvers :: FRESH, map[], false)
  }

  datatype Op =
    | Sent(r: Resolver)
    | Success(r: Resolver, latency: int)
    | Failure(r: Resolver)
    | Probes(results: seq<(Resolver, bool)>)      // HealthCheck: the drained results, in order
    | Update(ordered: seq<Resolver>)
    | SetCallback(present: bool)

  /** MarkSent and MarkFailure dereference the stats entry: a missing one is a crash. */
  predicate Enabled(p: Pool, op: Op) {
    match op
    case Sent(r) => r in p.stats
    case Failure(r) => r in p.stats
    case Probes(results) => forall i :: 0 <= i < |results| ==> results[i].0 in p.stats
    case _ => true
  }

  /** MarkFailure takes the resolver down (and fires the callback, if one is set). */
  predicate TakesDown(p: Pool, r: Resolver) {
    Streak(p, r) + 1 >= 10 && IsHealthy(p, r)
  }

  function ApplyProbes(p: Pool, results: seq<(Resolver, bool)>): Pool {
    if results == [] then p
    else
      var q := ApplyProbes(p, results[..|results| - 1]);
      var (r, alive) := results[|results| - 1];
      q.(healthy := q.healthy[r := alive], failStreak := if alive then q.failStreak[r := 0] else q.failStreak)
  }

  /** `m` with `v` for every listed resolver that is not known. */
  function WithNew<V>(m: map<Resolver, V>, known: set<Resolver>, listed: seq<Resolver>, v: V): map<Resolver, V> {
    m + map r | r in listed && r !in known :: v
  }

  function ApplyUpdate(p: Pool, ordered: seq<Resolver>): Pool {
    Rebuild(p.(resolvers := ordered,
               stats := WithNew(p.stats, p.stats.Keys, ordered, FRESH),
               failStreak := WithNew(p.failStreak, p.stats.Keys, ordered, 0),
               healthy := WithNew(p.healthy, p.healthy.Keys, ordered, true)))
  }

  function Apply(p: Pool, op: Op): Pool
    requires Enabled(p, op)
  {
    match op
    case Sent(r) => p.(stats := p.stats[r := p.stats[r].(sent := p.stats[r].sent + 1)])
    case Success(r, latency) =>
      if r !in p.stats then p
      else
        var s := p.stats[r];
        var q := p.(stats := p.stats[r := s.(ok := s.ok + 1, latency := Latency.Next(s.latency, latency))],
                    failStreak := p.failStreak[r := 0]);
        if IsHealthy(p, r) then q else Rebuild(q.(healthy := q.healthy[r := true]))
    case Failure(r) =>
      var s := p.stats[r];
      var q := p.(stats := p.stats[r := s.(fail := s.fail + 1)], failStreak := p.failStreak[r := Streak(p, r) + 1]);
      if TakesDown(p, r) then Rebuild(q.(healthy := q.healthy[r := false])) else q
    case Probes(results) => Rebuild(ApplyProbes(p, results))
    case Update(ordered) => ApplyUpdate(p, ordered)
    case SetCallback(present) => p.(hasCallback := present)
  }

  /** The state after the operations, `None` if one of them crashed. */
  function Run(start: Pool, ops: seq<Op>): Option<Pool> {
    if ops == [] then Some(start)
    else
      var p := Run(start, ops[..|ops| - 1]);
      if p.Some? && Enabled(p.value, ops[|ops| - 1]) then Some(Apply(p.value, ops[|ops| - 1])) else None
  }

  predicate Runs(start: Pool, ops: seq<Op>) {
    Run(start, ops).Some?
  }

  function After(start: Pool, ops: seq<Op>): Pool
    requires Runs(start, ops)
  {
    Run(start, ops).value
  }

  lemma RunExtends(start: Pool, ops: seq<Op>, op: Op)
    requires Runs(start, ops) && Enabled(After(start, ops), op)
    ensures Runs(start, ops + [op]) && After(start, ops + [op]) == Apply(After(start, ops), op)
  {
    assert (ops + [op])[..|ops|] == ops;
  }

  // --- the derived list and the stats domain

  ghost predicate Wf(p: Pool) {
    && p.healthyCache == Derived(p.resolvers, p.healthy)
    && p.healthy.Keys == p.stats.Keys
    && (forall r :: r in p.resolvers ==> r in p.stats)
  }

  lemma {:induction false} HealthyOfMembers(resolvers: seq<Resolver>, healthy: map<Resolver, bool>)
    ensures forall r :: r in HealthyOf(resolvers, healthy) <==> r in resolvers && r in healthy && healthy[r]
  {
    if resolvers != [] {
      HealthyOfMembers(resolvers[..|resolvers| - 1], healthy);
      assert resolvers == resolvers[..|resolvers| - 1] + [resolvers[|resolvers| - 1]];
    }
  }

  lemma {:induction false} HealthyOfAll(resolvers: seq<Resolver>, healthy: map<Resolver, bool>)
    requires forall r :: r in resolvers ==> r in healthy && healthy[r]
    ensures HealthyOf(resolvers, healthy) == resolvers
  {
    if resolvers != [] {
      HealthyOfAll(resolvers[..|resolvers| - 1], healthy);
      assert resolvers == resolvers[..|resolvers| - 1] + [resolvers[|resolvers| - 1]];
    }
  }

  lemma {:induction false} ApplyProbesFrame(p: Pool, results: seq<(Resolver, bool)>)
    requires p.healthy.Keys == p.stats.Keys && forall i :: 0 <= i < |results| ==> results[i].0 in p.stats
    ensures var q := ApplyProbes(p, results);
            && q.resolvers == p.resolvers && q.stats == p.stats && q.hasCallback == p.hasCallback
            && q.healthy.Keys == q.stats.Keys
  {
    if results != [] { ApplyProbesFrame(p, results[..|results| - 1]); }
  }

  lemma NewIsWf(resolvers: seq<Resolver>)
    ensures Wf(New(resolvers))
  {
    HealthyOfAll(resolvers, New(resolvers).healthy);
  }

  /** After every operation healthyCache is the healthy resolvers in list order, or the whole
      list if none is healthy; the stats domain only grows and contains the list. */
  lemma ApplyKeepsWf(p: Pool, op: Op)
    requires Wf(p) && Enabled(p, op)
    ensures Wf(Apply(p, op)) && p.stats.Keys <= Apply(p, op).stats.Keys
  {
    hide Derived;
    if op.Probes? { ApplyProbesFrame(p, op.results); }
  }

  /** The snapshot that a reader takes of healthyCache names only resolvers with stats, and is
      empty only if the list is. */
  lemma CacheHasStats(p: Pool)
    requires Wf(p)
    ensures forall r :: r in p.healthyCache ==> r in p.resolvers && r in p.stats
    ensures p.resolvers != [] ==> p.healthyCache != []
  {
    HealthyOfMembers(p.resolvers, p.healthy);
  }

  /** Every caller of UpdateResolvers guards against the empty list. */
  ghost predicate GuardedUpdates(ops: seq<Op>) {
    forall i :: 0 <= i < |ops| && ops[i].Update? ==> ops[i].ordered != []
  }

  /** The same over whole runs: started non-empty, the list stays non-empty, and every resolver
      of any earlier snapshot still has its stats entry. */
  lemma {:induction false} RunKeepsWf(resolvers: seq<Resolver>, ops: seq<Op>)
    requires Runs(New(resolvers), ops)
    ensures Wf(After(New(resolvers), ops))
    ensures resolvers != [] && GuardedUpdates(ops) ==> After(New(resolvers), ops).resolvers != []
  {
    if ops == [] {
      NewIsWf(resolvers);
    } else {
      var before := ops[..|ops| - 1];
      RunKeepsWf(resolvers, before);
      ApplyKeepsWf(After(New(resolvers), before), ops[|ops| - 1]);
      if ops[|ops| - 1].Probes? {
        ApplyProbesFrame(After(New(resolvers), before), ops[|ops| - 1].results);
      }
    }
  }

  lemma {:induction false} OldSnapshotsKeepStats(resolvers: seq<Resolver>, ops: seq<Op>, n: nat)
    requires Runs(New(resolvers), ops) && n <= |ops|
    ensures Runs(New(resolvers), ops[..n])
    ensures forall r :: r in After(New(resolvers), ops[..n]).healthyCache ==> r in After(New(resolvers), ops).stats
    decreases |ops|
  {
    if n == |ops| {
      assert ops[..n] == ops;
      RunKeepsWf(resolvers, ops);
      CacheHasStats(After(New(resolvers), ops));
    } else {
      var before := ops[..|ops| - 1];
      assert before[..n] == ops[..n];
      OldSnapshotsKeepStats(resolvers, before, n);
      RunKeepsWf(resolvers, before);
      ApplyKeepsWf(After(New(resolvers), before), ops[|ops| - 1]);
    }
  }

  // --- health as a function of the history

  datatype Event = Succeeded | Failed | Probed(alive: bool)

  function ProbeEvents(results: seq<(Resolver, bool)>, r: Resolver): seq<Event> {
    if results == [] then []
    else
      var last := results[|results| - 1];
      ProbeEvents(results[..|results| - 1], r) + if last.0 == r then [Probed(last.1)] else []
  }

  function Events(op: Op, r: Resolver): seq<Event> {
    match op
    case Success(r', _) => if r' == r then [Succeeded] else []
    case Failure(r') => if r' == r then [Failed] else []
    case Probes(results) => ProbeEvents(results, r)
    case _ => []
  }

  /** What happened to one resolver. */
  function History(ops: seq<Op>, r: Resolver): seq<Event> {
    if ops == [] then [] else History(ops[..|ops| - 1], r) + Events(ops[|ops| - 1], r)
  }

  predicate IsReset(e: Event) {
    e == Succeeded || e == Probed(true)
  }

  /** The events since the last success or live probe. */
  function SinceReset(h: seq<Event>): seq<Event> {
    if h == [] || IsReset(h[|h| - 1]) then [] else SinceReset(h[..|h| - 1]) + [h[|h| - 1]]
  }

  function Failures(h: seq<Event>): nat {
    if h == [] then 0 else Failures(h[..|h| - 1]) + if h[|h| - 1] == Failed then 1 else 0
  }

  /** Down: a dead probe or ten failures since the last success or live probe. */
  predicate Down(h: seq<Event>) {
    Probed(false) in SinceReset(h) || Failures(SinceReset(h)) >= 10
  }

  /** The pool agrees with the history on one resolver. */
  ghost predicate Tracks(p: Pool, r: Resolver, h: seq<Event>) {
    (IsHealthy(p, r) <==> !Down(h)) && Streak(p, r) == Failures(SinceReset(h))
  }

  lemma {:induction false} HistorySnoc(h: seq<Event>, e: Event)
    ensures SinceReset(h + [e]) == if IsReset(e) then [] else SinceReset(h) + [e]
    ensures Failures(h + [e]) == Failures(h) + if e == Failed then 1 else 0
  {
    assert (h + [e])[..|h|] == h;
  }

  lemma {:induction false} DownSnoc(h: seq<Event>, e: Event)
    ensures Down(h + [e]) <==>
            !IsReset(e) && (Down(h) || e == Probed(false) || (e == Failed && Failures(SinceReset(h)) + 1 >= 10))
    ensures Failures(SinceReset(h + [e])) ==
            if IsReset(e) then 0 else Failures(SinceReset(h)) + if e == Failed then 1 else 0
  {
    hide SinceReset, Failures;
    HistorySnoc(h, e);
    HistorySnoc(SinceReset(h), e);
    NoFailures();
  }

  lemma NoFailures()
    ensures Failures([]) == 0
  {}

  lemma {:induction false} ProbesTrack(p: Pool, results: seq<(Resolver, bool)>, r: Resolver, h: seq<Event>)
    requires Tracks(p, r, h)
    ensures Tracks(ApplyProbes(p, results), r, h + ProbeEvents(results, r))
  {
    hide Down, SinceReset, Failures;
    if results == [] {
      assert h + [] == h;
    } else {
      var before, last := results[..|results| - 1], results[|results| - 1];
      ProbesTrack(p, before, r, h);
      var h1 := h + ProbeEvents(before, r);
      if last.0 == r {
        DownSnoc(h1, Probed(last.1));
        assert h + (ProbeEvents(before, r) + [Probed(last.1)]) == h1 + [Probed(last.1)];
      } else {
        assert h + (ProbeEvents(before, r) + []) == h1;
      }
    }
  }

  /** The same for a resolver that may not have been listed yet. */
  ghost predicate TracksIfKnown(p: Pool, r: Resolver, h: seq<Event>) {
    if r in p.stats then Tracks(p, r, h) else !Down(h) && Failures(SinceReset(h)) == 0 && Streak(p, r) == 0
  }

  lemma SuccessTracks(p: Pool, r': Resolver, latency: int, r: Resolver, h: seq<Event>)
    requires TracksIfKnown(p, r, h)
    ensures TracksIfKnown(Apply(p, Success(r', latency)), r, h + Events(Success(r', latency), r))
  {
    hide Derived, Down, SinceReset, Failures, Latency.Next;
    if r' == r { DownSnoc(h, Succeeded); } else { assert h + [] == h; }
  }

  lemma FailureTracks(p: Pool, r': Resolver, r: Resolver, h: seq<Event>)
    requires TracksIfKnown(p, r, h) && r' in p.stats
    ensures TracksIfKnown(Apply(p, Failure(r')), r, h + Events(Failure(r'), r))
  {
    hide Derived, Down, SinceReset, Failures;
    if r' == r { DownSnoc(h, Failed); } else { assert h + [] == h; }
  }

  lemma UpdateTracks(p: Pool, ordered: seq<Resolver>, r: Resolver, h: seq<Event>)
    requires TracksIfKnown(p, r, h) && p.healthy.Keys == p.stats.Keys
    ensures TracksIfKnown(ApplyUpdate(p, ordered), r, h)
  {
    hide Derived, Down, SinceReset, Failures;
  }

  lemma ApplyTracks(p: Pool, op: Op, r: Resolver, h: seq<Event>)
    requires Wf(p) && Enabled(p, op) && TracksIfKnown(p, r, h)
    ensures TracksIfKnown(Apply(p, op), r, h + Events(op, r))
  {
    hide Derived, Down, SinceReset, Failures;
    match op
    case Probes(results) =>
      ApplyProbesFrame(p, results);
      if r in p.stats { ProbesTrack(p, results, r, h); } else { NoProbes(p, results, r); assert h + [] == h; }
    case Success(r', latency) => SuccessTracks(p, r', latency, r, h);
    case Failure(r') => FailureTracks(p, r', r, h);
    case Sent(_) => assert h + [] == h;
    case Update(ordered) => UpdateTracks(p, ordered, r, h); assert h + [] == h;
    case SetCallback(_) => assert h + [] == h;
  }

  lemma {:induction false} NoProbes(p: Pool, results: seq<(Resolver, bool)>, r: Resolver)
    requires forall i :: 0 <= i < |results| ==> results[i].0 != r
    ensures ProbeEvents(results, r) == []
    ensures Streak(ApplyProbes(p, results), r) == Streak(p, r)
  {
    if results != [] { NoProbes(p, results[..|results| - 1], r); }
  }

  lemma {:induction false} RunTracks(resolvers: seq<Resolver>, ops: seq<Op>, r: Resolver)
    requires Runs(New(resolvers), ops)
    ensures TracksIfKnown(After(New(resolvers), ops), r, History(ops, r))
  {
    if ops != [] {
      var before := ops[..|ops| - 1];
      RunTracks(resolvers, before, r);
      RunKeepsWf(resolvers, before);
      ApplyTracks(After(New(resolvers), before), ops[|ops| - 1], r, History(before, r));
    }
  }

  /** Health state equals a history function: in every reachable state a known resolver is down
      exactly when, since its last success or live probe, it had a dead probe or at least ten
      failures.  So a healthy one has a streak below ten, and listing a resolver again does not
      revive it: an Update adds nothing to the history. */
  lemma HealthIsHistory(resolvers: seq<Resolver>, ops: seq<Op>, r: Resolver)
    requires Runs(New(resolvers), ops) && r in After(New(resolvers), ops).stats
    ensures var p, recent := After(New(resolvers), ops), SinceReset(History(ops, r));
            && (!IsHealthy(p, r) <==> Probed(false) in recent || Failures(recent) >= 10)
            && (IsHealthy(p, r) ==> Streak(p, r) < 10)
  {
    RunTracks(resolvers, ops, r);
  }

  /** The down callback is due at a failure exactly when it is the tenth since the reset and no
      probe since then was dead. */
  lemma CallbackAtTenthFailure(resolvers: seq<Resolver>, ops: seq<Op>, r: Resolver)
    requires Runs(New(resolvers), ops) && r in After(New(resolvers), ops).stats
    ensures var recent := SinceReset(History(ops, r));
            TakesDown(After(New(resolvers), ops), r) <==> Failures(recent) == 9 && Probed(false) !in recent
  {
    RunTracks(resolvers, ops, r);
  }

  lemma {:induction false} SinceResetExtends(h: seq<Event>, more: seq<Event>)
    requires forall i :: 0 <= i < |more| ==> !IsReset(more[i])
    ensures SinceReset(h + more) == SinceReset(h) + more
    ensures Failures(h) <= Failures(h + more)
  {
    if more == [] {
      assert h + more == h && SinceReset(h) + more == SinceReset(h);
    } else {
      var before, e := more[..|more| - 1], more[|more| - 1];
      SinceResetExtends(h, before);
      HistorySnoc(h + before, e);
      assert h + more == (h + before) + [e] && SinceReset(h) + more == (SinceReset(h) + before) + [e];
    }
  }

  /** The events of the operations from `i` on. */
  lemma {:induction false} HistorySplits(ops: seq<Op>, more: seq<Op>, r: Resolver)
    ensures History(ops + more, r) == History(ops, r) + History(more, r)
    decreases |more|
  {
    if more == [] {
      assert ops + more == ops && History(ops, r) + [] == History(ops, r);
    } else {
      HistorySplits(ops, more[..|more| - 1], r);
      assert (ops + more)[..|ops + more| - 1] == ops + more[..|more| - 1];
    }
  }

  lemma {:induction false} RunsPrefix(start: Pool, ops: seq<Op>, more: seq<Op>)
    requires Runs(start, ops + more)
    ensures Runs(start, ops)
    decreases |more|
  {
    if more == [] {
      assert ops + more == ops;
    } else {
      assert (ops + more)[..|ops + more| - 1] == ops + more[..|more| - 1];
      RunsPrefix(start, ops, more[..|more| - 1]);
    }
  }

  /** The callback fires at most once between resets: if the same resolver is taken down twice,
      something in between was a success or a live probe. */
  lemma CallbackOncePerReset(resolvers: seq<Resolver>, ops: seq<Op>, more: seq<Op>, r: Resolver)
    requires Runs(New(resolvers), ops + [Failure(r)] + more)
    ensures Runs(New(resolvers), ops) && Runs(New(resolvers), ops + [Failure(r)] + more)
    ensures TakesDown(After(New(resolvers), ops), r) && TakesDown(After(New(resolvers), ops + [Failure(r)] + more), r)
            ==> exists i :: 0 <= i < |History(more, r)| && IsReset(History(more, r)[i])
  {
    hide Failures, SinceReset, Down, Run, Apply, Enabled, New, History;
    RunsPrefix(New(resolvers), ops + [Failure(r)], more);
    RunsPrefix(New(resolvers), ops, [Failure(r)]);
    var h, later := History(ops, r), History(more, r);
    HistorySplits(ops + [Failure(r)], more, r);
    HistorySplits(ops, [Failure(r)], r);
    OneFailure(r);
    RunTracks(resolvers, ops, r);
    RunTracks(resolvers, ops + [Failure(r)] + more, r);
    if TakesDown(After(New(resolvers), ops), r) && forall i :: 0 <= i < |later| ==> !IsReset(later[i]) {
      DownStays(h, later);
    }
  }

  lemma OneFailure(r: Resolver)
    ensures History([Failure(r)], r) == [Failed]
  {
    assert [Failure(r)][..0] == [] && History([], r) == [];
  }

  /** From the tenth failure on, without a reset. */
  lemma {:induction false} DownStays(h: seq<Event>, later: seq<Event>)
    requires Failures(SinceReset(h)) + 1 >= 10 && forall i :: 0 <= i < |later| ==> !IsReset(later[i])
    ensures Down(h + [Failed] + later)
  {
    hide Failures, SinceReset;
    DownSnoc(h, Failed);
    SinceResetExtends(h + [Failed], later);
    SinceResetExtends(SinceReset(h + [Failed]), later);
  }

  // --- latency and counters

  /** The latencies of the successes of one resolver, in order, since it was first listed. */
  function Samples(start: Pool, ops: seq<Op>, r: Resolver): seq<int>
    requires Runs(start, ops)
  {
    if ops == [] then []
    else
      var before, last := ops[..|ops| - 1], ops[|ops| - 1];
      Samples(start, before, r)
      + if last.Success? && last.r == r && r in After(start, before).stats then [last.latency] else []
  }

  function LatencyOf(p: Pool, r: Resolver): int {
    if r in p.stats then p.stats[r].latency else 0
  }

  lemma ApplyLatency(p: Pool, op: Op, r: Resolver)
    requires Enabled(p, op) && p.healthy.Keys == p.stats.Keys
    ensures LatencyOf(Apply(p, op), r) ==
            if op.Success? && op.r == r && r in p.stats then Latency.Next(p.stats[r].latency, op.latency)
            else LatencyOf(p, r)
  {
    hide Derived, Latency.Next;
    if op.Probes? { ApplyProbesFrame(p, op.results); }
  }

  /** How one operation changes the counters of one resolver. */
  lemma CountersAfter(p: Pool, op: Op, r: Resolver)
    requires Wf(p) && Enabled(p, op) && r in Apply(p, op).stats
    ensures var c := if r in p.stats then p.stats[r] else FRESH;
            var d := Apply(p, op).stats[r];
            && d.sent == c.sent + (if op == Sent(r) then 1 else 0)
            && d.ok == c.ok + (if op.Success? && op.r == r && r in p.stats then 1 else 0)
            && d.fail == c.fail + (if op == Failure(r) then 1 else 0)
  {
    hide Derived, Latency.Next;
    if op.Probes? { ApplyProbesFrame(p, op.results); }
  }

  /** The stored latency is the moving average of the resolver's own samples. */
  lemma {:induction false} LatencyIsAverage(resolvers: seq<Resolver>, ops: seq<Op>, r: Resolver)
    requires Runs(New(resolvers), ops)
    ensures LatencyOf(After(New(resolvers), ops), r) == Latency.Average(Samples(New(resolvers), ops, r))
  {
    hide Latency.Next;
    if ops != [] {
      var before, op := ops[..|ops| - 1], ops[|ops| - 1];
      LatencyIsAverage(resolvers, before, r);
      RunKeepsWf(resolvers, before);
      ApplyLatency(After(New(resolvers), before), op, r);
      AverageSnoc(Samples(New(resolvers), before, r), if op.Success? then op.latency else 0);
    }
  }

  lemma AverageSnoc(samples: seq<int>, x: int)
    ensures Latency.Average(samples + [x]) == Latency.Next(Latency.Average(samples), x)
    ensures samples + [] == samples
  {
    assert (samples + [x])[..|samples|] == samples;
  }

  /** For any history of positive samples in [lo, hi] the stored latency is 0 before the first
      sample and stays in [lo, hi] from then on. */
  lemma LatencyInRange(resolvers: seq<Resolver>, ops: seq<Op>, r: Resolver, lo: int, hi: int)
    requires Runs(New(resolvers), ops)
    requires 0 < lo && 10 * hi < 0x8000_0000_0000_0000 && Latency.Within(Samples(New(resolvers), ops, r), lo, hi)
    ensures var latency := LatencyOf(After(New(resolvers), ops), r);
            if Samples(New(resolvers), ops, r) == [] then latency == 0 else lo <= latency <= hi
  {
    LatencyIsAverage(resolvers, ops, r);
    if Samples(New(resolvers), ops, r) != [] { Latency.AverageInRange(Samples(New(resolvers), ops, r), lo, hi); }
  }
}

/**
 * ResolverPool of pool.go as a class.  Each method is one critical section; its postcondition
 * says that the state changes as the operation of PoolModel does.  Random choices, clocks and
 * the results of network probes are parameters.
 */
module Pool {
  import opened PoolModel
  import Latency

  /** The success rate GetNext computes from the two counters it loads. */
  function Rate(ok: nat, sent: nat): real {
    if sent > 0 then ok as real / sent as real else 1.0
  }

  /** The score: success rate over latency in units of 100 ms, latencies below 1 ms as 1 ms. */
  function ScoreFrom(rate: real, latency: int): real {
    var latencyMs := if latency as real / 1_000_000.0 < 1.0 then 1.0 else latency as real / 1_000_000.0;
    rate / (latencyMs / 100.0)
  }

  function Score(ok: nat, sent: nat, latency: int): (score: real)
    ensures score >= 0.0
  {
    ScoreNonNegative(Rate(ok, sent), latency);
    ScoreFrom(Rate(ok, sent), latency)
  }

  lemma ScoreNonNegative(rate: real, latency: int)
    requires rate >= 0.0
    ensures ScoreFrom(rate, latency) >= 0.0
  {
    var latencyMs := if latency as real / 1_000_000.0 < 1.0 then 1.0 else latency as real / 1_000_000.0;
    QuotientNonNegative(rate, latencyMs / 100.0);
  }

  /** The rate lies in [0, 1] when no more successes than sends were loaded. */
  lemma RateInUnit(ok: nat, sent: nat)
    requires ok <= sent
    ensures 0.0 <= Rate(ok, sent) <= 1.0
  {
    if sent > 0 {
      assert ok as real <= sent as real;
      assert Rate(ok, sent) * sent as real == ok as real;
    }
  }

  lemma QuotientNonNegative(a: real, b: real)
    requires a >= 0.0 && b > 0.0
    ensures a / b >= 0.0
  {}

  // --- what the score compares

  /** A latency below one millisecond counts as one. */
  function Counted(latency: int): (nanos: int)
    ensures nanos > 0
  {
    if latency < 1_000_000 then 1_000_000 else latency
  }

  /** Cross-multiplied: the success rate of `a` over its latency is at least that of `b`; where
      nothing was sent the rate counts as one. */
  predicate AtLeastAsGood(a: Stats, b: Stats) {
    var (okA, sentA) := if a.sent == 0 then (1, 1) else (a.ok, a.sent);
    var (okB, sentB) := if b.sent == 0 then (1, 1) else (b.ok, b.sent);
    okA * sentB * Counted(b.latency) >= okB * sentA * Counted(a.latency)
  }

  function ScoreOfStats(s: Stats): real {
    Score(s.ok, s.sent, s.latency)
  }

  /** The score, multiplied out. */
  lemma ScoreMultiplied(s: Stats)
    ensures var (ok, sent) := if s.sent == 0 then (1, 1) else (s.ok, s.sent);
            ScoreOfStats(s) * (sent as real * Counted(s.latency) as real) == ok as real * 100_000_000.0
  {
    var (ok, sent) := if s.sent == 0 then (1, 1) else (s.ok, s.sent);
    var rate, w := Rate(s.ok, s.sent), Counted(s.latency) as real;
    assert rate * sent as real == ok as real;
    assert (if s.latency as real / 1_000_000.0 < 1.0 then 1.0 else s.latency as real / 1_000_000.0) == w / 1_000_000.0;
    Quotient(rate, w);
    assert ScoreOfStats(s) * w == rate * 100_000_000.0;
    assert ScoreOfStats(s) * (sent as real * w) == ScoreOfStats(s) * w * sent as real;
  }

  lemma Quotient(rate: real, w: real)
    requires w > 0.0
    ensures rate / (w / 1_000_000.0 / 100.0) * w == rate * 100_000_000.0
  {
    var q := rate / (w / 100_000_000.0);
    assert w / 1_000_000.0 / 100.0 == w / 100_000_000.0;
    assert q * (w / 100_000_000.0) == rate;
  }

  /** Scores are ordered by success rate over latency, exactly. */
  lemma ScoresCompare(a: Stats, b: Stats)
    ensures ScoreOfStats(a) >= ScoreOfStats(b) <==> AtLeastAsGood(a, b)
  {
    hide ScoreOfStats, Counted;
    var (okA, sentA) := if a.sent == 0 then (1, 1) else (a.ok, a.sent);
    var (okB, sentB) := if b.sent == 0 then (1, 1) else (b.ok, b.sent);
    var dA, dB := sentA * Counted(a.latency), sentB * Counted(b.latency);
    Positive(sentA, Counted(a.latency));
    Positive(sentB, Counted(b.latency));
    ScoreMultiplied(a);
    ScoreMultiplied(b);
    Cross(ScoreOfStats(a), ScoreOfStats(b), dA, dB, okA, okB);
    Associative(okA, sentB, Counted(b.latency));
    Associative(okB, sentA, Counted(a.latency));
  }

  lemma Associative(x: int, y: int, z: int)
    ensures x * y * z == x * (y * z)
  {}

  lemma Positive(x: int, y: int)
    requires x > 0 && y > 0
    ensures x * y > 0 && (x * y) as real == x as real * y as real
  {}

  lemma Cross(x: real, y: real, dX: int, dY: int, nX: int, nY: int)
    requires dX > 0 && dY > 0
    requires x * dX as real == nX as real * 100_000_000.0 && y * dY as real == nY as real * 100_000_000.0
    ensures x >= y <==> nX * dY >= nY * dX
  {
    var d := dX as real * dY as real;
    assert d > 0.0;
    assert x * d == nX as real * 100_000_000.0 * dY as real;
    assert y * d == nY as real * 100_000_000.0 * dX as real;
    assert (nX * dY) as real == nX as real * dY as real && (nY * dX) as real == nY as real * dX as real;
    Scale(x, y, d);
  }

  lemma Scale(x: real, y: real, d: real)
    requires d > 0.0
    ensures x >= y <==> x * d >= y * d
  {}

  lemma WithNewNone<V>(m: map<Resolver, V>, known: set<Resolver>, v: V)
    ensures WithNew(m, known, [], v) == m
  {}

  lemma WithNewSnoc<V>(m: map<Resolver, V>, known: set<Resolver>, listed: seq<Resolver>, r: Resolver, v: V)
    ensures WithNew(m, known, listed + [r], v) ==
            if r in known || r in listed then WithNew(m, known, listed, v) else WithNew(m, known, listed, v)[r := v]
    ensures m.Keys == known ==> (r in WithNew(m, known, listed, v) <==> r in known || r in listed)
  {}

  class ResolverPool {
    var resolvers: seq<Resolver>
    var healthy: map<Resolver, bool>
    var healthyCache: seq<Resolver>
    var stats: map<Resolver, Stats>
    var failStreak: map<Resolver, nat>
    var hasCallback: bool

    ghost function State(): PoolModel.Pool
      reads this
    {
      PoolModel.Pool(resolvers, healthy, healthyCache, stats, failStreak, hasCallback)
    }

    constructor (list: seq<Resolver>)
      ensures State() == New(list)
    {
      resolvers, healthyCache := list, list;
      healthy, stats, failStreak, hasCallback := map[], map[], map[], false;
      new;
      for i := 0 to |list|
        modifies this
        invariant resolvers == list && healthyCache == list && failStreak == map[] && !hasCallback
        invariant healthy == map r | r in list[..i] :: true
        invariant stats == map r | r in list[..i] :: FRESH
      {
        healthy := healthy[list[i] := true];
        stats := stats[list[i] := FRESH];
        assert list[..i + 1] == list[..i] + [list[i]];
      }
      assert list[..|list|] == list;
    }

    method RebuildHealthyCache()
      modifies this`healthyCache
      ensures healthyCache == Derived(resolvers, healthy)
    {
      var cache := [];
      for i := 0 to |resolvers|
        invariant cache == HealthyOf(resolvers[..i], healthy)
      {
        assert resolvers[..i + 1][..i] == resolvers[..i];
        var r := resolvers[i];
        if r in healthy && healthy[r] { cache := cache + [r]; }
      }
      assert resolvers[..|resolvers|] == resolvers;
      if |cache| == 0 { cache := resolvers; }
      healthyCache := cache;
    }

    method MarkSent(r: Resolver)
      requires Enabled(State(), Sent(r))
      modifies this`stats
      ensures State() == Apply(old(State()), Sent(r))
    {
      stats := stats[r := stats[r].(sent := stats[r].sent + 1)];
    }

    method MarkSuccessWithLatency(r: Resolver, latency: int)
      modifies this
      ensures State() == Apply(old(State()), Success(r, latency))
    {
      hide Derived, Latency.Wrap64, Latency.TruncDiv;
      if r !in stats { return; }
      var s := stats[r].(ok := stats[r].ok + 1);
      failStreak := failStreak[r := 0];
      if s.latency == 0 {
        s := s.(latency := latency);
      } else {
        var weighted := Latency.Wrap64(Latency.Wrap64(latency * 2) + Latency.Wrap64(s.latency * 8));
        s := s.(latency := Latency.TruncDiv(weighted, 10));
      }
      stats := stats[r := s];
      if !(r in healthy && healthy[r]) {
        healthy := healthy[r := true];
        RebuildHealthyCache();
      }
    }

    /** `fired`: the callback is started in its own goroutine after the lock is released. */
    method MarkFailure(r: Resolver) returns (fired: bool)
      requires Enabled(State(), Failure(r))
      modifies this
      ensures State() == Apply(old(State()), Failure(r))
      ensures fired <==> TakesDown(old(State()), r) && hasCallback
    {
      stats := stats[r := stats[r].(fail := stats[r].fail + 1)];
      failStreak := failStreak[r := (if r in failStreak then failStreak[r] else 0) + 1];
      fired := false;
      if failStreak[r] >= 10 && r in healthy && healthy[r] {
        healthy := healthy[r := false];
        RebuildHealthyCache();
        fired := hasCallback;
      }
    }

    /** The draining half of HealthCheck, on the results in the order they arrive. */
    method ApplyProbeResults(results: seq<(Resolver, bool)>)
      modifies this
      ensures State() == Rebuild(ApplyProbes(old(State()), results))
    {
      ghost var start := State();
      for i := 0 to |results|
        invariant State() == ApplyProbes(start, results[..i])
      {
        assert results[..i + 1][..i] == results[..i];
        var (r, alive) := results[i];
        healthy := healthy[r := alive];
        if alive { failStreak := failStreak[r := 0]; }
      }
      assert results[..|results|] == results;
      RebuildHealthyCache();
    }

    method UpdateResolvers(ordered: seq<Resolver>)
      modifies this
      ensures State() == ApplyUpdate(old(State()), ordered)
    {
      ghost var was := State();
      hide WithNew;
      WithNewNone(was.stats, was.stats.Keys, FRESH);
      WithNewNone(was.failStreak, was.stats.Keys, 0);
      WithNewNone(was.healthy, was.healthy.Keys, true);
      assert ordered[..0] == [];
      resolvers := ordered;
      for i := 0 to |ordered|
        invariant resolvers == ordered && healthyCache == was.healthyCache && hasCallback == was.hasCallback
        invariant stats == WithNew(was.stats, was.stats.Keys, ordered[..i], FRESH)
        invariant failStreak == WithNew(was.failStreak, was.stats.Keys, ordered[..i], 0)
        invariant healthy == WithNew(was.healthy, was.healthy.Keys, ordered[..i], true)
      {
        var r := ordered[i];
        assert ordered[..i + 1] == ordered[..i] + [r];
        WithNewSnoc(was.stats, was.stats.Keys, ordered[..i], r, FRESH);
        WithNewSnoc(was.failStreak, was.stats.Keys, ordered[..i], r, 0);
        WithNewSnoc(was.healthy, was.healthy.Keys, ordered[..i], r, true);
        if r !in stats {
          stats := stats[r := FRESH];
          failStreak := failStreak[r := 0];
        }
        if r !in healthy {
          healthy := healthy[r := true];
        }
      }
      assert ordered[..|ordered|] == ordered;
      RebuildHealthyCache();
    }

    method HealthyCount() returns (n: nat)
      ensures n == |healthyCache|
    {
      n := |healthyCache|;
    }

    /** GetNext run alone: `picks` are the random positions.  The resolver returned is one of the
        sampled ones; none of them has a better success rate over latency, and of the best it is
        the first sampled.  While a listed resolver is up it is one that is up. */
    method GetNext(picks: seq<nat>, fallback: nat) returns (best: Resolver)
      requires forall r :: r in healthyCache ==> r in stats
      requires |picks| == 3 && (healthyCache != [] ==> forall i :: 0 <= i < 3 ==> picks[i] < |healthyCache|)
      requires healthyCache == [] ==> fallback < |resolvers|
      ensures if healthyCache == [] then best == resolvers[fallback] else best in healthyCache && best in stats
      ensures healthyCache != [] ==>
              var candidates := if |healthyCache| < 3 then |healthyCache| else 3;
              exists i :: 0 <= i < candidates && healthyCache[picks[i]] == best
                && (forall j :: 0 <= j < candidates ==> AtLeastAsGood(stats[best], stats[healthyCache[picks[j]]]))
                && (forall j :: 0 <= j < i ==> !AtLeastAsGood(stats[healthyCache[picks[j]]], stats[best]))
      ensures Wf(State()) && (exists r :: r in resolvers && IsHealthy(State(), r)) ==> IsHealthy(State(), best)
    {
      hide AtLeastAsGood, Score;
      if |healthyCache| == 0 {
        NothingDown(State());
        return resolvers[fallback];
      }
      var candidates := 3;
      if |healthyCache| < candidates { candidates := |healthyCache|; }
      best := healthyCache[picks[0]];
      var bestScore: real := -1.0;
      ghost var found := 0;
      for i := 0 to candidates
        invariant i == 0 ==> bestScore == -1.0
        invariant i > 0 ==> found < i && healthyCache[picks[found]] == best && bestScore == ScoreOfStats(stats[best])
        invariant forall j :: 0 <= j < i ==> ScoreOfStats(stats[healthyCache[picks[j]]]) <= bestScore
        invariant forall j :: 0 <= j < found && j < i ==> ScoreOfStats(stats[healthyCache[picks[j]]]) < bestScore
      {
        var r := healthyCache[picks[i]];
        var s := stats[r];
        var score := Score(s.ok, s.sent, s.latency);
        if score > bestScore {
          bestScore := score;
          best := r;
          found := i;
        }
      }
      forall j | 0 <= j < candidates ensures AtLeastAsGood(stats[best], stats[healthyCache[picks[j]]]) {
        ScoresCompare(stats[best], stats[healthyCache[picks[j]]]);
      }
      forall j | 0 <= j < found ensures !AtLeastAsGood(stats[healthyCache[picks[j]]], stats[best]) {
        ScoresCompare(stats[healthyCache[picks[j]]], stats[best]);
      }
      NothingDown(State());
    }
  }

  /** While some listed resolver is up, only such resolvers are in healthyCache. */
  lemma NothingDown(p: PoolModel.Pool)
    ensures Wf(p) && (exists r :: r in p.resolvers && IsHealthy(p, r)) ==>
              p.healthyCache != [] && forall r :: r in p.healthyCache ==> r in p.resolvers && IsHealthy(p, r)
  {
    HealthyOfMembers(p.resolvers, p.healthy);
  }
}

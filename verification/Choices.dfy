/**
 * What GetNext chooses with other threads running between its loads: of the candidates it drew,
 * the first that is best by the counters it loaded for them.
 */
module Choices {
  import opened Options
  import opened Dns
  import P = PoolModel
  import opened Forwarding
  import C = CacheModel
  import Pool

  /** The i-th candidate is at least as good as every other, and better than those before it. */
  ghost predicate IsBest(drawn: seq<(P.Resolver, P.Stats)>, i: nat) {
    && i < |drawn|
    && (forall j :: 0 <= j < |drawn| ==> Pool.AtLeastAsGood(drawn[i].1, drawn[j].1))
    && (forall j :: 0 <= j < i ==> !Pool.AtLeastAsGood(drawn[j].1, drawn[i].1))
  }

  ghost predicate BestSoFar(search: Search) {
    && |search.drawn| + search.left == (if |search.snapshot| < 3 then |search.snapshot| else 3)
    && (forall j :: 0 <= j < |search.drawn| ==> search.drawn[j].0 in search.snapshot)
    && match search.best
       case None => search.drawn == []
       case Some((r, score)) =>
         exists i: nat ::
           IsBest(search.drawn, i) && search.drawn[i].0 == r && score == Pool.ScoreOfStats(search.drawn[i].1)
  }

  ghost predicate ThreadBest(th: Thread) {
    match th
    case Searching(_, search) => BestSoFar(search)
    case LoadedOk(_, search, r, _) => BestSoFar(search) && r in search.snapshot
    case LoadedSent(_, search, r, _, _) => BestSoFar(search) && r in search.snapshot
    case _ => true
  }

  ghost predicate AllBest(s: State) {
    forall t :: 0 <= t < |s.threads| ==> ThreadBest(s.threads[t])
  }

  /** One more candidate. */
  lemma BestGrows(search: Search, r: P.Resolver, loaded: P.Stats)
    requires BestSoFar(search) && search.left > 0 && r in search.snapshot
    ensures BestSoFar(Search(search.failed, search.snapshot, search.left - 1,
                             Better(search.best, r, Pool.ScoreOfStats(loaded)), search.drawn + [(r, loaded)]))
  {
    hide Pool.AtLeastAsGood, Pool.Score;
    var drawn, n := search.drawn + [(r, loaded)], |search.drawn|;
    var score := Pool.ScoreOfStats(loaded);
    if search.best.None? {
      Pool.ScoresCompare(loaded, loaded);
      assert IsBest(drawn, n);
    } else {
      var i: nat :| IsBest(search.drawn, i) && search.drawn[i].0 == search.best.value.0
                    && search.best.value.1 == Pool.ScoreOfStats(search.drawn[i].1);
      if score > search.best.value.1 {
        BestReplaced(search.drawn, i, r, loaded);
      } else {
        BestKept(search.drawn, i, r, loaded);
      }
    }
  }

  lemma BestKept(before: seq<(P.Resolver, P.Stats)>, i: nat, r: P.Resolver, loaded: P.Stats)
    requires IsBest(before, i) && Pool.ScoreOfStats(loaded) <= Pool.ScoreOfStats(before[i].1)
    ensures IsBest(before + [(r, loaded)], i)
  {
    hide Pool.AtLeastAsGood, Pool.ScoreOfStats;
    Pool.ScoresCompare(before[i].1, loaded);
  }

  lemma BestReplaced(before: seq<(P.Resolver, P.Stats)>, i: nat, r: P.Resolver, loaded: P.Stats)
    requires IsBest(before, i) && Pool.ScoreOfStats(loaded) > Pool.ScoreOfStats(before[i].1)
    ensures IsBest(before + [(r, loaded)], |before|)
  {
    hide Pool.AtLeastAsGood, Pool.ScoreOfStats;
    var drawn := before + [(r, loaded)];
    forall j | 0 <= j < |drawn|
      ensures Pool.AtLeastAsGood(loaded, drawn[j].1) && (j < |before| ==> !Pool.AtLeastAsGood(drawn[j].1, loaded))
    {
      if j < |before| { assert drawn[j] == before[j]; }
      Pool.ScoresCompare(loaded, drawn[j].1);
      Pool.ScoresCompare(drawn[j].1, loaded);
      Pool.ScoresCompare(before[i].1, drawn[j].1);
    }
  }

  /** Every step changes the search of at most its own thread, and only as the loop does. */
  lemma StepKeepsBest(unpack: Unpacker, s: State, a: Action)
    requires AllBest(s) && Enabled(s, a)
    ensures AllBest(Apply(unpack, s, a))
  {
    hide AllBest, Apply, Enabled;
    match a
    case TakeSnapshot(_) => LoadKeepsBest(unpack, s, a);
    case LoadOk(_, _) => LoadKeepsBest(unpack, s, a);
    case LoadSent(_) => LoadKeepsBest(unpack, s, a);
    case LoadLatency(t) => LatencyKeepsBest(unpack, s, t);
    case _ => OtherKeepsBest(unpack, s, a);
  }

  lemma LoadKeepsBest(unpack: Unpacker, s: State, a: Action)
    requires AllBest(s) && Enabled(s, a) && (a.TakeSnapshot? || a.LoadOk? || a.LoadSent?)
    ensures AllBest(Apply(unpack, s, a))
  {
    hide BestSoFar;
    assert ThreadBest(s.threads[a.t]);
    if a.TakeSnapshot? { SearchBegins(s.pool.healthyCache, s.threads[a.t].failed); }
  }

  lemma OtherKeepsBest(unpack: Unpacker, s: State, a: Action)
    requires AllBest(s) && Enabled(s, a)
    requires !a.TakeSnapshot? && !a.LoadOk? && !a.LoadSent? && !a.LoadLatency?
    ensures AllBest(Apply(unpack, s, a))
  {
    hide BestSoFar, C.Step, C.Reply, P.Apply, P.Enabled;
  }

  lemma SearchBegins(snapshot: seq<P.Resolver>, failed: Option<P.Resolver>)
    ensures BestSoFar(Search(failed, snapshot, if |snapshot| < 3 then |snapshot| else 3, None, []))
  {}

  lemma LatencyKeepsBest(unpack: Unpacker, s: State, t: nat)
    requires AllBest(s) && Enabled(s, LoadLatency(t))
    ensures AllBest(Apply(unpack, s, LoadLatency(t)))
  {
    hide BestSoFar, Better, Pool.Rate, Pool.ScoreFrom;
    var th := s.threads[t];
    if th.r in s.pool.stats && th.search.left > 0 {
      assert ThreadBest(th);
      BestGrows(th.search, th.r, P.Stats(th.sent, th.ok, 0, s.pool.stats[th.r].latency));
    }
  }

  lemma {:induction false} RunKeepsBest(unpack: Unpacker, s: State, acts: seq<Action>, t: State)
    requires AllBest(s) && Run(unpack, s, acts, t)
    ensures AllBest(t)
    decreases |acts|
  {
    hide AllBest;
    if acts != [] {
      StepKeepsBest(unpack, s, acts[0]);
      RunKeepsBest(unpack, Apply(unpack, s, acts[0]), acts[1..], t);
    }
  }

  /** Whenever GetNext settles on a resolver, it has drawn three candidates, or as many as its
      snapshot has, from the snapshot, and takes the first that is best by what it loaded. */
  lemma ChoiceIsBest(resolvers: seq<P.Resolver>, unpack: Unpacker, cacheOn: bool, maxSize: int, now: int,
                     acts: seq<Action>, s: State, t: nat)
    requires Reachable(resolvers, unpack, cacheOn, maxSize, now, acts, s) && Enabled(s, Choose(t))
    ensures var search := s.threads[t].search;
            && |search.drawn| == (if |search.snapshot| < 3 then |search.snapshot| else 3)
            && (forall j :: 0 <= j < |search.drawn| ==> search.drawn[j].0 in search.snapshot)
            && exists i: nat :: IsBest(search.drawn, i)
                 && Apply(unpack, s, Choose(t)).threads[t]
                    == Chosen(s.threads[t].query, search.failed, search.drawn[i].0)
  {
    hide PoolInv, C.Step, C.Reply;
    RunKeepsBest(unpack, Init(resolvers, cacheOn, maxSize, now), acts, s);
    InitPoolInv(resolvers, cacheOn, maxSize, now);
    RunKeepsPoolInv(resolvers, unpack, Init(resolvers, cacheOn, maxSize, now), acts, s);
    ThreadIsOk(resolvers, s, t);
    var search := s.threads[t].search;
    assert ThreadBest(s.threads[t]);
    var i: nat :| IsBest(search.drawn, i) && search.drawn[i].0 == search.best.value.0;
  }
}

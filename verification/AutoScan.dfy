/**
 * AutoScanner of autoscan.go: the paths of the initial scan, the readiness gate, the periodic
 * scan, and the hot reload of reload.go.  What findns returns and how the built-in scan went
 * are parameters: the latter is any completed run of the protocol in Scan.dfy.
 */
module AutoScan {
  import opened Options
  import opened PoolModel
  import opened Verify
  import Pool
  import Scan
  import Selection

  /** readyOnce guarding close(readyCh): closing twice would crash. */
  class ReadyGate {
    var done: bool
    var closes: nat
    /** The pool that those who wait for readiness find. */
    ghost var found: Option<PoolModel.Pool>

    constructor ()
      ensures !done && closes == 0 && Valid()
    {
      done, closes, found := false, 0, None;
    }

    ghost predicate Valid()
      reads this
    {
      closes == (if done then 1 else 0) && (found.Some? <==> done)
    }

    /** `pool` is the pool at the time of the call; only the first call closes. */
    method Do(ghost pool: PoolModel.Pool)
      requires Valid()
      modifies this
      ensures Valid() && done
      ensures found == if old(done) then old(found) else Some(pool)
    {
      if !done {
        done := true;
        closes := closes + 1;
        found := Some(pool);
      }
    }
  }

  /** The results of a completed scan, as the driver returns them. */
  ghost predicate Completed(c: Scan.Config, acts: seq<Scan.Action>, end: Scan.State,
                            calls: seq<seq<Resolver>>, results: seq<VerifyResult>) {
    && Scan.Run(c, Scan.INIT, acts, end) && end.main == Scan.Returned
    && calls == end.calls
    && |results| == |end.results| && forall k :: 0 <= k < |results| ==> results[k] == end.results[k].result
  }

  /** The driver calls onReady at most once, never with an empty list, and exactly when some
      result is WORKING. */
  lemma CompletedCalls(c: Scan.Config, acts: seq<Scan.Action>, end: Scan.State,
                       calls: seq<seq<Resolver>>, results: seq<VerifyResult>)
    requires Completed(c, acts, end, calls, results) && !c.quiet
    ensures |calls| <= 1 && forall i :: 0 <= i < |calls| ==> calls[i] != []
    ensures |results| == |c.resolvers|
    ensures calls == [] <==> forall r :: r in results ==> !r.verified && r.status != Working
  {
    hide Scan.Run, Scan.Select;
    Scan.ScanResult(c, acts, end);
    Scan.VerifiedWork(c, acts, end);
    SomeWorks(results);
    assert (exists k :: 0 <= k < |end.results| && end.results[k].result.status == Working)
      <==> exists k :: 0 <= k < |results| && results[k].status == Working;
  }

  lemma SomeWorks(results: seq<VerifyResult>)
    requires forall k :: 0 <= k < |results| && results[k].verified ==> results[k].status == Working
    ensures (exists k :: 0 <= k < |results| && results[k].status == Working) <==>
            !forall r :: r in results ==> !r.verified && r.status != Working
  {
    if k :| 0 <= k < |results| && results[k].status == Working {
      assert results[k] in results;
    }
  }

  /** The pool once `chosen` has been selected: the old one if nothing was. */
  function Selected(before: PoolModel.Pool, chosen: seq<VerifyResult>): PoolModel.Pool {
    if chosen == [] then before else ApplyUpdate(before, Selection.Resolvers(chosen))
  }

  class AutoScanner {
    const pool: Pool.ResolverPool
    const gate: ReadyGate
    const topN: int

    constructor (pool: Pool.ResolverPool, topN: int)
      ensures this.pool == pool && this.topN == topN && fresh(gate) && gate.Valid() && !gate.done
    {
      this.pool, this.topN := pool, topN;
      gate := new ReadyGate();
    }

    /** onReady as initialScanBuiltin defines it. */
    method OnReady(ready: seq<Resolver>)
      requires gate.Valid()
      modifies pool, gate
      ensures gate.Valid() && gate.done
      ensures pool.State() == ApplyUpdate(old(pool.State()), ready)
      ensures !old(gate.done) ==> gate.found == Some(pool.State())
    {
      pool.UpdateResolvers(ready);
      gate.Do(pool.State());
    }

    /** The built-in initial scan, given how the scan went.  If anything works, the pool is first
        given the early list and then the fastest of all results; otherwise it is kept. */
    method InitialScanBuiltin(calls: seq<seq<Resolver>>, results: array<VerifyResult>,
                              ghost c: Scan.Config, ghost acts: seq<Scan.Action>, ghost end: Scan.State)
        returns (ghost chosen: seq<VerifyResult>, ghost rest: seq<VerifyResult>)
      requires gate.Valid() && !c.quiet && Completed(c, acts, end, calls, results[..])
      modifies pool, gate, results
      ensures gate.Valid() && gate.done
      ensures Selection.BestOf(old(results[..]), topN, chosen, rest)
      ensures (calls == [] <==> chosen == []) && |calls| <= 1
      ensures !old(gate.done) ==>
                gate.found == Some(if calls == [] then old(pool.State()) else ApplyUpdate(old(pool.State()), calls[0]))
      ensures pool.State() == if calls == [] then old(pool.State())
                              else Selected(ApplyUpdate(old(pool.State()), calls[0]), chosen)
      ensures old(pool.resolvers) != [] || calls != [] ==> pool.resolvers != []
    {
      hide Completed, WithNew, Derived, Selection.BestOf, Rebuild;
      CompletedCalls(c, acts, end, calls, results[..]);
      for i := 0 to |calls|
        invariant gate.Valid() && results[..] == old(results[..])
        invariant if i == 0 then gate.done == old(gate.done) else gate.done
        invariant !old(gate.done) && i > 0 ==> gate.found == Some(pool.State())
        invariant pool.State() == if i == 0 then old(pool.State()) else ApplyUpdate(old(pool.State()), calls[0])
      {
        OnReady(calls[i]);
      }
      ghost var early := pool.State();
      chosen, rest := Selection.ProcessResults(results, topN, pool);
      gate.Do(pool.State());
      UpdateLists(early, Selection.Resolvers(chosen));
      if calls != [] { UpdateLists(old(pool.State()), calls[0]); }
    }

    /** initialScan: findns on the given list, then on its own list, then the built-in scan.
        `None` is a failed findns run.  readyCh is closed exactly once when it returns. */
    method InitialScan(findnsAvailable: bool, primary: Option<seq<Resolver>>, deep: Option<seq<Resolver>>,
                       calls: seq<seq<Resolver>>, results: array<VerifyResult>,
                       ghost c: Scan.Config, ghost acts: seq<Scan.Action>, ghost end: Scan.State)
        returns (ghost chosen: seq<VerifyResult>, ghost rest: seq<VerifyResult>)
      requires gate.Valid() && !gate.done && !c.quiet && Completed(c, acts, end, calls, results[..])
      modifies pool, gate, results
      ensures gate.done && gate.closes == 1
      ensures var first := if findnsAvailable && primary.Some? then primary.value else [];
              var second := if findnsAvailable && primary == Some([]) && deep.Some? then deep.value else [];
              if first != [] || second != [] then
                && pool.State() == ApplyUpdate(old(pool.State()), if first != [] then first else second)
                && gate.found == Some(pool.State())
              else
                && gate.found == Some(if calls == [] then old(pool.State())
                                      else ApplyUpdate(old(pool.State()), calls[0]))
                && Selection.BestOf(old(results[..]), topN, chosen, rest)
                && (calls == [] <==> chosen == [])
                && pool.State() == if calls == [] then old(pool.State())
                                   else Selected(ApplyUpdate(old(pool.State()), calls[0]), chosen)
      ensures old(pool.resolvers) != [] ==> pool.resolvers != []
    {
      hide Completed, WithNew, Derived, Selection.BestOf, Rebuild;
      chosen, rest := [], [];
      if findnsAvailable {
        if primary.Some? {
          if |primary.value| > 0 {
            UpdateLists(pool.State(), primary.value);
            pool.UpdateResolvers(primary.value);
            gate.Do(pool.State());
            return;
          }
          if deep.Some? && |deep.value| > 0 {
            UpdateLists(pool.State(), deep.value);
            pool.UpdateResolvers(deep.value);
            gate.Do(pool.State());
            return;
          }
        }
      }
      chosen, rest := InitialScanBuiltin(calls, results, c, acts, end);
    }

    /** The maintenance tick of the loop: the pool is thinning if fewer than half of the wanted
        resolvers can be drawn and there are others to scan. */
    method Thinning(total: nat) returns (trigger: bool)
      ensures trigger <==> 2 * |pool.healthyCache| + 2 <= topN && |pool.healthyCache| < total
    {
      var healthy := pool.HealthyCount();
      trigger := topN > 0 && healthy < topN / 2 && healthy < total;
    }

    /** scanAndUpdate: a periodic or triggered round. */
    method ScanAndUpdate(findnsAvailable: bool, found: Option<seq<Resolver>>, results: array<VerifyResult>)
        returns (ghost chosen: seq<VerifyResult>, ghost rest: seq<VerifyResult>)
      modifies pool, results
      ensures if findnsAvailable && found.Some? && found.value != [] then
                pool.State() == ApplyUpdate(old(pool.State()), found.value)
              else
                && Selection.BestOf(old(results[..]), topN, chosen, rest)
                && (chosen == [] <==> forall r :: r in old(results[..]) ==> !r.verified && r.status != Working)
                && pool.State() == Selected(old(pool.State()), chosen)
      ensures old(pool.resolvers) != [] ==> pool.resolvers != []
    {
      hide WithNew, Derived, Selection.BestOf, Rebuild;
      chosen, rest := [], [];
      if findnsAvailable && found.Some? && |found.value| > 0 {
        UpdateLists(pool.State(), found.value);
        pool.UpdateResolvers(found.value);
        return;
      }
      chosen, rest := Selection.ProcessResults(results, topN, pool);
      UpdateLists(old(pool.State()), Selection.Resolvers(chosen));
    }
  }

  lemma UpdateLists(p: PoolModel.Pool, ordered: seq<Resolver>)
    ensures ApplyUpdate(p, ordered).resolvers == ordered
  {
    hide WithNew, Derived;
  }

  /** doReload of reload.go: a file without resolvers keeps the current pool. */
  method DoReload(pool: Pool.ResolverPool, parsed: seq<Resolver>)
    modifies pool
    ensures pool.State() == if parsed == [] then old(pool.State()) else ApplyUpdate(old(pool.State()), parsed)
    ensures old(pool.resolvers) != [] ==> pool.resolvers != []
  {
    if |parsed| == 0 { return; }
    pool.UpdateResolvers(parsed);
  }
}

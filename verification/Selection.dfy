/**
 * sortVerifyResults and processResults of autoscan.go, and the sort in runScan of scanner.go.
 */
module Selection {
  import opened PoolModel
  import opened Verify
  import opened StableSort
  import Pool

  /** Verified first, then by latency. */
  function ResultKey(r: VerifyResult): Key {
    (if r.verified then 0 else 1, r.latencyMs)
  }

  const ByResult := (r: VerifyResult) => ResultKey(r)

  /** The comparison that sortVerifyResults writes out. */
  lemma ResultLess(a: VerifyResult, b: VerifyResult)
    ensures Less(ByResult(a), ByResult(b)) <==>
            (a.verified && !b.verified) || (a.verified == b.verified && a.latencyMs < b.latencyMs)
  {}

  method SortVerifyResults(results: array<VerifyResult>)
    modifies results
    ensures Sorted(results[..], ByResult) && StablePermutation(old(results[..]), results[..], ByResult)
  {
    hide StablePermutation, Sorted, SortedBut, Less, ByResult, Swapped;
    ghost var was := results[..];
    StableRefl(was, ByResult);
    StartsSorted(was, ByResult);
    var i := 1;
    while i < results.Length
      invariant 1 <= i && (results.Length > 0 ==> i <= results.Length)
      invariant SortedBut(results[..], if i <= results.Length then i else 0, 0, ByResult)
      invariant StablePermutation(was, results[..], ByResult)
    {
      var j := i;
      HoleOpens(results[..], i, ByResult);
      while j > 0
        invariant 0 <= j <= i < results.Length
        invariant SortedBut(results[..], i + 1, j, ByResult)
        invariant StablePermutation(was, results[..], ByResult)
      {
        var swap := false;
        if results[j].verified && !results[j - 1].verified {
          swap := true;
        } else if results[j].verified == results[j - 1].verified && results[j].latencyMs < results[j - 1].latencyMs {
          swap := true;
        }
        ghost var s := results[..];
        ResultLess(s[j], s[j - 1]);
        if swap {
          SwapNeighbours(results, j);
        }
        Sink(was, s, results[..], i + 1, j, ByResult);
        j := j - 1;
      }
      i := i + 1;
    }
    HoleCloses(results[..], ByResult);
  }

  /** ScanResult of scanner.go, as far as the summary of runScan orders it. */
  datatype ScanResult = ScanResult(resolver: Resolver, score: int, latencyMs: int)

  /** Best score first, then by latency. */
  const ByScore := (r: ScanResult) => (-r.score, r.latencyMs)

  lemma ScoreLess(a: ScanResult, b: ScanResult)
    ensures Less(ByScore(a), ByScore(b)) <==> a.score > b.score || (a.score == b.score && a.latencyMs < b.latencyMs)
  {}

  method SortByScore(best: array<ScanResult>)
    modifies best
    ensures Sorted(best[..], ByScore) && StablePermutation(old(best[..]), best[..], ByScore)
  {
    hide StablePermutation, Sorted, SortedBut, Less, ByScore, Swapped;
    ghost var was := best[..];
    StableRefl(was, ByScore);
    StartsSorted(was, ByScore);
    var i := 1;
    while i < best.Length
      invariant 1 <= i && (best.Length > 0 ==> i <= best.Length)
      invariant SortedBut(best[..], if i <= best.Length then i else 0, 0, ByScore)
      invariant StablePermutation(was, best[..], ByScore)
    {
      var j := i;
      HoleOpens(best[..], i, ByScore);
      while j > 0
        invariant 0 <= j <= i < best.Length
        invariant SortedBut(best[..], i + 1, j, ByScore)
        invariant StablePermutation(was, best[..], ByScore)
      {
        ghost var s := best[..];
        var swap := best[j].score > best[j - 1].score
                    || (best[j].score == best[j - 1].score && best[j].latencyMs < best[j - 1].latencyMs);
        ScoreLess(s[j], s[j - 1]);
        if swap {
          SwapNeighbours(best, j);
        }
        Sink(was, s, best[..], i + 1, j, ByScore);
        j := j - 1;
      }
      i := i + 1;
    }
    HoleCloses(best[..], ByScore);
  }

  // --- selection

  function Keep(results: seq<VerifyResult>, p: VerifyResult -> bool): seq<VerifyResult> {
    if results == [] then []
    else
      var last := results[|results| - 1];
      Keep(results[..|results| - 1], p) + if p(last) then [last] else []
  }

  /** The candidates: the verified results, or the working ones if none is verified. */
  function Candidates(results: seq<VerifyResult>): seq<VerifyResult> {
    if Keep(results, IsVerified) != [] then Keep(results, IsVerified) else Keep(results, IsWorking)
  }

  function Limit(topN: int, n: nat): (limit: nat)
    ensures limit <= n && (limit == 0 <==> n == 0)
  {
    if 0 < topN < n then topN else n
  }

  function Resolvers(results: seq<VerifyResult>): (resolvers: seq<Resolver>)
    ensures |resolvers| == |results| && forall i :: 0 <= i < |results| ==> resolvers[i] == results[i].resolver
  {
    seq(|results|, i requires 0 <= i < |results| => results[i].resolver)
  }

  /** Verified, or WORKING if none of the results is verified. */
  ghost predicate Eligible(results: seq<VerifyResult>, r: VerifyResult) {
    r.verified || (r.status == Working && forall x :: x in results ==> !x.verified)
  }

  /** `chosen` and `rest` together are the eligible results, each as often as it occurs; `chosen` are
      topN of them, or all if there are fewer or topN is no limit, by rising latency, and none left
      out is faster. */
  ghost predicate BestOf(results: seq<VerifyResult>, topN: int, chosen: seq<VerifyResult>, rest: seq<VerifyResult>) {
    && (forall r: VerifyResult ::
          multiset(chosen + rest)[r] == if Eligible(results, r) then multiset(results)[r] else 0)
    && |chosen| == (if 0 < topN < |chosen + rest| then topN else |chosen + rest|)
    && (forall i, j :: 0 <= i < j < |chosen| ==> chosen[i].latencyMs <= chosen[j].latencyMs)
    && (forall i, j :: 0 <= i < |chosen| && 0 <= j < |rest| ==> chosen[i].latencyMs <= rest[j].latencyMs)
  }

  lemma {:induction false} KeepCounts(results: seq<VerifyResult>, p: VerifyResult -> bool, x: VerifyResult)
    ensures multiset(Keep(results, p))[x] == if p(x) then multiset(results)[x] else 0
  {
    if results != [] {
      KeepCounts(results[..|results| - 1], p, x);
      assert results == results[..|results| - 1] + [results[|results| - 1]];
    }
  }

  lemma KeepPermutes(s: seq<VerifyResult>, t: seq<VerifyResult>, p: VerifyResult -> bool)
    requires multiset(s) == multiset(t)
    ensures multiset(Keep(s, p)) == multiset(Keep(t, p))
  {
    forall x: VerifyResult ensures multiset(Keep(s, p))[x] == multiset(Keep(t, p))[x] {
      KeepCounts(s, p, x);
      KeepCounts(t, p, x);
    }
  }

  lemma CandidatesPermute(s: seq<VerifyResult>, t: seq<VerifyResult>)
    requires multiset(s) == multiset(t)
    ensures multiset(Candidates(s)) == multiset(Candidates(t))
  {
    hide Keep;
    KeepPermutes(s, t, IsVerified);
    KeepPermutes(s, t, IsWorking);
    assert |multiset(Keep(s, IsVerified))| == |multiset(Keep(t, IsVerified))|;
  }

  /** Keeping some results of a sorted sequence keeps them sorted. */
  lemma {:induction false} KeepSorted(s: seq<VerifyResult>, p: VerifyResult -> bool)
    requires Sorted(s, ByResult)
    ensures Sorted(Keep(s, p), ByResult) && forall x :: x in Keep(s, p) ==> x in s && p(x)
  {
    if s != [] {
      var before, last := s[..|s| - 1], s[|s| - 1];
      KeepSorted(before, p);
      forall x | x in Keep(before, p) ensures !Less(ByResult(last), ByResult(x)) {
        assert x in before;
        var i :| 0 <= i < |before| && before[i] == x;
        assert s[i] == x;
      }
    }
  }

  lemma {:induction false} KeepNone(s: seq<VerifyResult>, p: VerifyResult -> bool)
    ensures Keep(s, p) == [] <==> forall x :: x in s ==> !p(x)
  {
    if s != [] {
      KeepNone(s[..|s| - 1], p);
      assert s == s[..|s| - 1] + [s[|s| - 1]];
    }
  }

  lemma CandidatesByLatency(s: seq<VerifyResult>)
    requires Sorted(s, ByResult)
    ensures forall i, j :: 0 <= i < j < |Candidates(s)| ==> Candidates(s)[i].latencyMs <= Candidates(s)[j].latencyMs
  {
    KeepSorted(s, IsVerified);
    KeepSorted(s, IsWorking);
    KeepNone(s, IsVerified);
    var c := Candidates(s);
    forall i, j | 0 <= i < j < |c| ensures c[i].latencyMs <= c[j].latencyMs {
      assert c[i] in c && c[j] in c && c[i] in s && c[j] in s;
      assert c[i].verified == c[j].verified;
      assert !Less(ByResult(c[j]), ByResult(c[i]));
    }
  }

  /** Taking the first ones of the sorted results takes the best of the unsorted ones. */
  lemma PrefixIsBest(results: seq<VerifyResult>, sorted: seq<VerifyResult>, topN: int)
    requires Sorted(sorted, ByResult) && multiset(results) == multiset(sorted)
    ensures var c := Candidates(sorted);
            BestOf(results, topN, c[..Limit(topN, |c|)], c[Limit(topN, |c|)..])
  {
    hide Candidates, Sorted, Eligible;
    CandidatesPermute(results, sorted);
    CandidatesByLatency(sorted);
    var c := Candidates(sorted);
    var n := Limit(topN, |c|);
    assert c[..n] + c[n..] == c;
    forall r: VerifyResult ensures multiset(c)[r] == if Eligible(results, r) then multiset(results)[r] else 0 {
      CandidatesAreEligible(results, r);
    }
  }

  lemma CandidatesAreEligible(results: seq<VerifyResult>, r: VerifyResult)
    ensures multiset(Candidates(results))[r] == if Eligible(results, r) then multiset(results)[r] else 0
  {
    hide Keep;
    KeepNone(results, IsVerified);
    KeepCounts(results, IsVerified, r);
    KeepCounts(results, IsWorking, r);
    if r.verified && r !in results { assert multiset(results)[r] == 0; }
    if r.verified && r in results { assert Keep(results, IsVerified) != []; }
  }

  /** The collecting loops: append until the limit is reached. */
  method Collect(results: array<VerifyResult>, topN: int, p: VerifyResult -> bool) returns (qualified: seq<Resolver>)
    ensures qualified == Resolvers(Keep(results[..], p)[..Limit(topN, |Keep(results[..], p)|)])
  {
    qualified := [];
    ghost var all := results[..];
    for i := 0 to results.Length
      invariant qualified == Resolvers(Keep(all[..i], p)) && (topN > 0 ==> |qualified| < topN)
    {
      assert all[..i + 1][..i] == all[..i];
      if p(results[i]) {
        qualified := qualified + [results[i].resolver];
        assert qualified == Resolvers(Keep(all[..i + 1], p));
        if topN > 0 && |qualified| >= topN {
          KeepPrefix(all, i + 1, p);
          return;
        }
      }
    }
    assert all[..results.Length] == all;
  }

  lemma {:induction false} KeepPrefix(s: seq<VerifyResult>, n: nat, p: VerifyResult -> bool)
    requires n <= |s|
    ensures Keep(s[..n], p) <= Keep(s, p)
  {
    if n == |s| {
      assert s[..n] == s;
    } else {
      assert s[..|s| - 1][..n] == s[..n];
      KeepPrefix(s[..|s| - 1], n, p);
    }
  }

  /** processResults: the pool gets the topN fastest verified resolvers, none slower than a
      verified one left out, or the same over WORKING ones if none is verified; the old pool is
      kept only when nothing works. */
  method ProcessResults(results: array<VerifyResult>, topN: int, pool: Pool.ResolverPool)
      returns (ghost chosen: seq<VerifyResult>, ghost rest: seq<VerifyResult>)
    modifies results, pool
    ensures BestOf(old(results[..]), topN, chosen, rest)
    ensures chosen == [] <==> forall r :: r in old(results[..]) ==> !r.verified && r.status != Working
    ensures Sorted(results[..], ByResult) && StablePermutation(old(results[..]), results[..], ByResult)
    ensures chosen + rest == Candidates(results[..])
    ensures pool.State() == if chosen == [] then old(pool.State())
                            else ApplyUpdate(old(pool.State()), Resolvers(chosen))
  {
    hide Candidates, BestOf, Sorted, StablePermutation, Resolvers, Limit, ApplyUpdate;
    ghost var was := results[..];
    SortVerifyResults(results);
    ghost var sorted := results[..];
    SameElements(was, sorted, ByResult);
    ghost var c := Candidates(sorted);
    ghost var n := Limit(topN, |c|);
    PrefixIsBest(was, sorted, topN);
    NothingWorks(was, sorted);
    chosen, rest := c[..n], c[n..];
    var qualified := Qualify(results, topN);
    if |qualified| == 0 { return; }
    pool.UpdateResolvers(qualified);
  }

  /** Verified results first, WORKING ones if there are none. */
  method Qualify(results: array<VerifyResult>, topN: int) returns (qualified: seq<Resolver>)
    ensures var c := Candidates(results[..]);
            qualified == Resolvers(c[..Limit(topN, |c|)])
  {
    hide Keep;
    qualified := Collect(results, topN, IsVerified);
    if |qualified| == 0 {
      qualified := Collect(results, topN, IsWorking);
    }
  }

  lemma NothingWorks(results: seq<VerifyResult>, sorted: seq<VerifyResult>)
    requires multiset(results) == multiset(sorted)
    ensures Candidates(sorted) == [] <==> forall r :: r in results ==> !r.verified && r.status != Working
  {
    hide Keep;
    KeepNone(sorted, IsVerified);
    KeepNone(sorted, IsWorking);
    forall r ensures r in results <==> r in sorted {
      assert r in results <==> r in multiset(results);
      assert r in sorted <==> r in multiset(sorted);
    }
  }
}

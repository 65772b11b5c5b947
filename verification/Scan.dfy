/**
 * The scan drivers of scanner.go as a concurrent protocol: verifyResolversWithEarlyReady, and
 * verifyResolversQuiet, which is the same without the callback.
 *
 * The caller's goroutine takes a token from a channel of capacity `workers`, launches one
 * goroutine per resolver and waits for all of them.  A worker verifies its resolver, records
 * the result under the lock, possibly runs onReady, and gives the token back.  Verification
 * results and the order of everything are arbitrary; onReady is assumed to return.
 */
module Scan {
  import opened Options
  import opened PoolModel
  import opened Verify
  import opened Filters

  datatype Config = Config(resolvers: seq<Resolver>, workers: nat, targetCount: int, quiet: bool)

  function Target(c: Config): nat {
    if c.targetCount <= 0 then 20 else c.targetCount
  }

  datatype Worker =
    | Verifying
    | InReady      // running onReady
    | Leaving      // about to give the token back
    | Gone

  datatype Main = Launching | InLateReady | Returned

  /** One result, with the position of its resolver in the input. */
  datatype Entry = Entry(index: nat, result: VerifyResult)

  datatype State = State(workers: seq<Worker>, results: seq<Entry>, verified: seq<Resolver>, readySent: bool,
                         calls: seq<seq<Resolver>>, finished: nat, main: Main)

  const INIT := State([], [], [], false, [], 0, Launching)

  datatype Action =
    | Launch
    | Record(i: nat, result: VerifyResult)
    | ReadyReturns(i: nat)
    | Leave(i: nat)
    | Collect
    | LateReadyReturns

  /** Tokens taken: workers that have not left. */
  function Active(workers: seq<Worker>): nat {
    if workers == [] then 0
    else Active(workers[..|workers| - 1]) + if workers[|workers| - 1] == Gone then 0 else 1
  }

  /** The resolvers of the entries that satisfy `keep`, in order. */
  function Select(results: seq<Entry>, keep: VerifyResult -> bool): seq<Resolver> {
    if results == [] then []
    else
      var last := results[|results| - 1].result;
      Select(results[..|results| - 1], keep) + if keep(last) then [last.resolver] else []
  }

  ghost predicate Enabled(c: Config, s: State, a: Action) {
    match a
    case Launch => s.main == Launching && |s.workers| < |c.resolvers| && Active(s.workers) < c.workers
    case Record(i, result) =>
      && i < |s.workers| <= |c.resolvers| && s.workers[i] == Verifying
      && Possible(c.resolvers[i], result)
    case ReadyReturns(i) => i < |s.workers| && s.workers[i] == InReady
    case Leave(i) => i < |s.workers| && s.workers[i] == Leaving
    case Collect => s.main == Launching && |s.workers| == |c.resolvers| && Active(s.workers) == 0
    case LateReadyReturns => s.main == InLateReady
  }

  /** The locked section of a worker. */
  function ApplyRecord(c: Config, s: State, i: nat, result: VerifyResult): State
    requires i < |s.workers|
  {
    var s1 := s.(results := s.results + [Entry(i, result)], workers := s.workers[i := Leaving]);
    if c.quiet || !result.verified then s1
    else
      var verified := s.verified + [result.resolver];
      if |verified| >= Target(c) && !s.readySent then
        s1.(verified := verified, readySent := true, calls := s.calls + [verified], workers := s.workers[i := InReady])
      else s1.(verified := verified)
  }

  /** After the wait: the callback with what there is, unless it ran early. */
  function ApplyCollect(c: Config, s: State): State {
    if c.quiet || s.readySent then s.(main := Returned)
    else
      var ready := if s.verified == [] then Select(s.results, IsWorking) else s.verified;
      if ready == [] then s.(main := Returned) else s.(calls := s.calls + [ready], main := InLateReady)
  }

  function Apply(c: Config, s: State, a: Action): State
    requires Enabled(c, s, a)
  {
    match a
    case Launch => s.(workers := s.workers + [Verifying])
    case Record(i, result) => ApplyRecord(c, s, i, result)
    case ReadyReturns(i) => s.(workers := s.workers[i := Leaving], finished := s.finished + 1)
    case Leave(i) => s.(workers := s.workers[i := Gone])
    case Collect => ApplyCollect(c, s)
    case LateReadyReturns => s.(main := Returned, finished := s.finished + 1)
  }

  ghost predicate Run(c: Config, s: State, acts: seq<Action>, t: State)
    decreases |acts|
  {
    if acts == [] then t == s
    else Enabled(c, s, acts[0]) && Run(c, Apply(c, s, acts[0]), acts[1..], t)
  }

  // --- counting tokens

  lemma {:induction false} ActiveUpdate(workers: seq<Worker>, i: nat, w: Worker)
    requires i < |workers|
    ensures Active(workers[i := w])
            == Active(workers) - (if workers[i] == Gone then 0 else 1) + if w == Gone then 0 else 1
  {
    var n := |workers| - 1;
    if i < n {
      ActiveUpdate(workers[..n], i, w);
      assert workers[i := w][..n] == workers[..n][i := w];
    } else {
      assert workers[i := w][..n] == workers[..n];
    }
  }

  lemma {:induction false} ActiveZero(workers: seq<Worker>)
    ensures Active(workers) == 0 <==> forall i :: 0 <= i < |workers| ==> workers[i] == Gone
  {
    if workers != [] { ActiveZero(workers[..|workers| - 1]); }
  }

  lemma ActiveSnoc(workers: seq<Worker>, w: Worker)
    ensures Active(workers + [w]) == Active(workers) + if w == Gone then 0 else 1
  {
    assert (workers + [w])[..|workers|] == workers;
  }

  lemma SelectSnoc(results: seq<Entry>, e: Entry, keep: VerifyResult -> bool)
    ensures Select(results + [e], keep) == Select(results, keep) + if keep(e.result) then [e.result.resolver] else []
  {
    assert (results + [e])[..|results|] == results;
  }

  lemma {:induction false} SelectEmpty(results: seq<Entry>, keep: VerifyResult -> bool)
    ensures Select(results, keep) == [] <==> forall k :: 0 <= k < |results| ==> !keep(results[k].result)
  {
    if results != [] { SelectEmpty(results[..|results| - 1], keep); }
  }

  // --- invariants

  /** Each recorded worker has exactly one result, for its own resolver. */
  ghost predicate ResultsInv(c: Config, s: State) {
    && |s.workers| <= |c.resolvers| && Active(s.workers) <= c.workers && (s.workers != [] ==> c.workers > 0)
    && (forall k :: 0 <= k < |s.results| ==>
          var e := s.results[k];
          && e.index < |s.workers| && s.workers[e.index] != Verifying
          && e.result.resolver == c.resolvers[e.index] && (e.result.verified ==> e.result.status == Working))
    && (forall j, k :: 0 <= j < k < |s.results| ==> s.results[j].index != s.results[k].index)
    && |s.results| == Recorded(s.workers)
    && (s.main != Launching ==> |s.workers| == |c.resolvers| && Active(s.workers) == 0)
  }

  /** Workers that have recorded their result. */
  function Recorded(workers: seq<Worker>): nat {
    if workers == [] then 0
    else Recorded(workers[..|workers| - 1]) + if workers[|workers| - 1] == Verifying then 0 else 1
  }

  lemma {:induction false} RecordedUpdate(workers: seq<Worker>, i: nat, w: Worker)
    requires i < |workers|
    ensures Recorded(workers[i := w])
            == Recorded(workers) - (if workers[i] == Verifying then 0 else 1) + if w == Verifying then 0 else 1
  {
    var n := |workers| - 1;
    if i < n {
      RecordedUpdate(workers[..n], i, w);
      assert workers[i := w][..n] == workers[..n][i := w];
    } else {
      assert workers[i := w][..n] == workers[..n];
    }
  }

  lemma {:induction false} RecordedAll(workers: seq<Worker>)
    requires forall i :: 0 <= i < |workers| ==> workers[i] != Verifying
    ensures Recorded(workers) == |workers|
  {
    if workers != [] { RecordedAll(workers[..|workers| - 1]); }
  }

  ghost predicate Busy(s: State) {
    s.main == InLateReady || exists i :: 0 <= i < |s.workers| && s.workers[i] == InReady
  }

  /** The callback: never begun twice, early with the first targetCount verified resolvers, late
      with whatever there is. */
  ghost predicate ReadyInv(c: Config, s: State) {
    && s.verified == (if c.quiet then [] else Select(s.results, IsVerified))
    && (s.readySent ==> !c.quiet && |s.verified| >= Target(c) && s.calls == [s.verified[..Target(c)]])
    && (!s.readySent ==> |s.verified| < Target(c))
    && (!s.readySent && s.main == Launching ==> s.calls == [])
    && (!s.readySent && s.main != Launching ==>
          s.calls == (if c.quiet || LateList(s) == [] then [] else [LateList(s)]))
    && s.finished <= |s.calls| <= 1
    && (Busy(s) <==> s.finished < |s.calls|)
    && (forall i, j :: 0 <= i < j < |s.workers| ==> s.workers[i] != InReady || s.workers[j] != InReady)
    && (s.main == InLateReady ==> forall i :: 0 <= i < |s.workers| ==> s.workers[i] != InReady)
  }

  function LateList(s: State): seq<Resolver> {
    if s.verified == [] then Select(s.results, IsWorking) else s.verified
  }

  lemma StepKeepsResults(c: Config, s: State, a: Action)
    requires ResultsInv(c, s) && Enabled(c, s, a)
    ensures ResultsInv(c, Apply(c, s, a))
  {
    hide Active, Recorded, Select, Possible, ApplyRecord;
    ActiveZero(s.workers);
    match a
    case Launch =>
      ActiveSnoc(s.workers, Verifying);
      RecordedSnoc(s.workers);
    case Record(i, result) => RecordKeepsResults(c, s, i, result);
    case ReadyReturns(i) =>
      ActiveUpdate(s.workers, i, Leaving);
      RecordedUpdate(s.workers, i, Leaving);
    case Leave(i) =>
      ActiveUpdate(s.workers, i, Gone);
      RecordedUpdate(s.workers, i, Gone);
    case Collect =>
    case LateReadyReturns =>
  }

  lemma RecordKeepsResults(c: Config, s: State, i: nat, result: VerifyResult)
    requires ResultsInv(c, s) && Enabled(c, s, Record(i, result))
    ensures ResultsInv(c, ApplyRecord(c, s, i, result))
  {
    hide Active, Recorded, Select, Possible;
    ActiveZero(s.workers);
    PossibleExactly(c.resolvers[i], result);
    var w := ApplyRecord(c, s, i, result).workers[i];
    ActiveUpdate(s.workers, i, w);
    RecordedUpdate(s.workers, i, w);
  }

  lemma RecordedSnoc(workers: seq<Worker>)
    ensures Recorded(workers + [Verifying]) == Recorded(workers)
  {
    assert (workers + [Verifying])[..|workers|] == workers;
  }

  lemma RecordKeepsReady(c: Config, s: State, i: nat, result: VerifyResult)
    requires ResultsInv(c, s) && ReadyInv(c, s) && Enabled(c, s, Record(i, result))
    ensures ReadyInv(c, ApplyRecord(c, s, i, result))
  {
    hide Select, Active;
    var t := ApplyRecord(c, s, i, result);
    SelectSnoc(s.results, Entry(i, result), IsVerified);
    ActiveZero(s.workers);
    assert s.main == Launching;
    assert t.verified[..|s.verified|] == s.verified;
    if s.readySent { assert t.verified[..Target(c)] == s.verified[..Target(c)]; }
    if t.readySent && !s.readySent { assert t.verified[..Target(c)] == t.verified; }
    assert Busy(t) <==> t.workers[i] == InReady || Busy(s) by {
      if j :| 0 <= j < |s.workers| && s.workers[j] == InReady { assert t.workers[j] == InReady; }
      if t.workers[i] == InReady { assert Busy(t); }
    }
  }

  lemma StepKeepsReady(c: Config, s: State, a: Action)
    requires ResultsInv(c, s) && ReadyInv(c, s) && Enabled(c, s, a)
    ensures ReadyInv(c, Apply(c, s, a))
  {
    hide ReadyInv, ResultsInv, Apply;
    match a
    case Launch => WorkersKeepReady(c, s, a);
    case Leave(_) => WorkersKeepReady(c, s, a);
    case Record(i, result) => RecordStep(c, s, i, result);
    case _ => CallbackKeepsReady(c, s, a);
  }

  lemma RecordStep(c: Config, s: State, i: nat, result: VerifyResult)
    requires ResultsInv(c, s) && ReadyInv(c, s) && Enabled(c, s, Record(i, result))
    ensures ReadyInv(c, Apply(c, s, Record(i, result)))
  {
    hide ReadyInv, ResultsInv;
    RecordKeepsReady(c, s, i, result);
  }

  /** Workers that come and go do not touch the callback. */
  lemma WorkersKeepReady(c: Config, s: State, a: Action)
    requires ResultsInv(c, s) && ReadyInv(c, s) && Enabled(c, s, a) && (a.Launch? || a.Leave?)
    ensures ReadyInv(c, Apply(c, s, a))
  {
    hide Select, Active, Possible, ApplyRecord;
    ActiveZero(s.workers);
    var t := Apply(c, s, a);
    if j :| 0 <= j < |s.workers| && s.workers[j] == InReady { assert t.workers[j] == InReady; }
  }

  /** The callback begins late or ends. */
  lemma CallbackKeepsReady(c: Config, s: State, a: Action)
    requires ResultsInv(c, s) && ReadyInv(c, s) && Enabled(c, s, a)
    requires a.ReadyReturns? || a.Collect? || a.LateReadyReturns?
    ensures ReadyInv(c, Apply(c, s, a))
  {
    hide Select, Active, Possible, ApplyRecord;
    ActiveZero(s.workers);
    var t := Apply(c, s, a);
    match a
    case ReadyReturns(i) =>
      assert Busy(s);
      assert !Busy(t);
    case Collect => assert !Busy(s);
    case LateReadyReturns => assert Busy(s);
  }

  lemma {:induction false} RunKeepsInv(c: Config, s: State, acts: seq<Action>, t: State)
    requires ResultsInv(c, s) && ReadyInv(c, s) && Run(c, s, acts, t)
    ensures ResultsInv(c, t) && ReadyInv(c, t)
    decreases |acts|
  {
    hide ResultsInv, ReadyInv;
    if acts != [] {
      StepKeepsResults(c, s, acts[0]);
      StepKeepsReady(c, s, acts[0]);
      RunKeepsInv(c, Apply(c, s, acts[0]), acts[1..], t);
    }
  }

  // --- the guarantees

  /** The results hold one entry per input, in the order of completion. */
  ghost predicate OnePerInput(c: Config, results: seq<Entry>) {
    && |results| == |c.resolvers|
    && (forall k :: 0 <= k < |results| ==>
          results[k].index < |c.resolvers| && results[k].result.resolver == c.resolvers[results[k].index])
    && (forall j, k :: 0 <= j < k < |results| ==> results[j].index != results[k].index)
  }

  /** At every moment at most `workers` verifications are in flight and the callback was begun at
      most once; if it was begun early, its list is the first targetCount verified resolvers in
      order of completion, and it began as soon as there were that many. */
  lemma ScanIsSafe(c: Config, acts: seq<Action>, t: State)
    requires Run(c, INIT, acts, t)
    ensures Active(t.workers) <= c.workers && |t.calls| <= 1
    ensures t.main == Launching && t.calls != [] ==>
              !c.quiet && |Select(t.results, IsVerified)| >= Target(c)
              && t.calls == [Select(t.results, IsVerified)[..Target(c)]]
    ensures t.main == Launching && t.calls == [] && !c.quiet ==> |Select(t.results, IsVerified)| < Target(c)
    ensures var target := if c.targetCount > 0 then c.targetCount else 20;
            && (t.main == Launching && t.calls != [] ==> |t.calls[0]| == target)
            && (t.main == Launching && t.calls == [] && !c.quiet ==> |Select(t.results, IsVerified)| < target)
  {
    RunKeepsInv(c, INIT, acts, t);
  }

  /** When the driver returns: one result per input; the callback ran exactly once if some result
      is WORKING, and not at all otherwise (never in the quiet driver); it has finished. */
  lemma ScanResult(c: Config, acts: seq<Action>, t: State)
    requires Run(c, INIT, acts, t) && t.main == Returned
    ensures OnePerInput(c, t.results)
    ensures t.finished == |t.calls|
    ensures |t.calls| == 1 <==> !c.quiet && exists k :: 0 <= k < |t.results| && t.results[k].result.status == Working
    ensures |t.calls| <= 1 && (|t.calls| == 1 ==>
              var verified := Select(t.results, IsVerified);
              && t.calls[0] != []
              && t.calls[0] == if |verified| >= Target(c) then verified[..Target(c)]
                               else if verified != [] then verified
                               else Select(t.results, IsWorking))
  {
    hide Run, ResultsInv, ReadyInv, Select, OnePerInput;
    InitInv(c);
    RunKeepsInv(c, INIT, acts, t);
    ReturnedResults(c, t);
    ReturnedCalls(c, t);
  }

  lemma InitInv(c: Config)
    ensures ResultsInv(c, INIT) && ReadyInv(c, INIT)
  {}

  lemma ReturnedResults(c: Config, t: State)
    requires ResultsInv(c, t) && t.main == Returned
    ensures OnePerInput(c, t.results)
    ensures (exists k :: 0 <= k < |t.results| && t.results[k].result.status == Working) <==>
            Select(t.results, IsWorking) != []
    ensures Select(t.results, IsVerified) != [] ==> Select(t.results, IsWorking) != []
  {
    hide Active, Recorded, Select;
    ActiveZero(t.workers);
    RecordedAll(t.workers);
    SelectEmpty(t.results, IsVerified);
    SelectEmpty(t.results, IsWorking);
    if Select(t.results, IsVerified) != [] {
      var k :| 0 <= k < |t.results| && IsVerified(t.results[k].result);
      assert IsWorking(t.results[k].result);
    }
  }

  lemma ReturnedCalls(c: Config, t: State)
    requires ResultsInv(c, t) && ReadyInv(c, t) && t.main == Returned
    ensures t.finished == |t.calls| <= 1
    ensures var verified := Select(t.results, IsVerified);
            var list := if |verified| >= Target(c) then verified[..Target(c)]
                        else if verified != [] then verified else Select(t.results, IsWorking);
            t.calls == if c.quiet || list == [] then [] else [list]
  {
    hide Active, Recorded, Select;
    ActiveZero(t.workers);
    assert !Busy(t);
  }

  // --- progress

  function Weight(w: Worker): nat {
    match w case Verifying => 3 case InReady => 2 case Leaving => 1 case Gone => 0
  }

  function TotalWeight(workers: seq<Worker>): nat {
    if workers == [] then 0 else TotalWeight(workers[..|workers| - 1]) + Weight(workers[|workers| - 1])
  }

  function Remaining(c: Config, s: State): int {
    4 * (|c.resolvers| - |s.workers|) + TotalWeight(s.workers)
    + match s.main case Launching => 2 case InLateReady => 1 case Returned => 0
  }

  /** What is handed to the callback: the resolvers of exactly the results in question, in the order
      in which they were recorded. */
  lemma {:induction false} SelectFilters(results: seq<Entry>, keep: VerifyResult -> bool)
    ensures Filtered(results, Select(results, keep), (e: Entry) => keep(e.result), (e: Entry) => e.result.resolver)
  {
    var k, f := (e: Entry) => keep(e.result), (e: Entry) => e.result.resolver;
    if results == [] {
      FilterNone(k, f);
    } else {
      var before, last := results[..|results| - 1], results[|results| - 1];
      SelectFilters(before, keep);
      FilterSnoc(before, Select(before, keep), k, f, last);
      assert before + [last] == results;
    }
  }

  /** The first `n` verifications under way. */
  function Fanned(n: nat): State {
    INIT.(workers := seq(n, _ => Verifying))
  }

  /** The workers are put to use: as many verifications as there are workers, or inputs if there
      are fewer, can be in flight at once. */
  lemma {:induction false} AllWorkersCanRun(c: Config, n: nat) returns (acts: seq<Action>)
    requires n <= c.workers && n <= |c.resolvers|
    ensures Run(c, INIT, acts, Fanned(n)) && Active(Fanned(n).workers) == n
  {
    hide Run, Enabled, Apply, Fanned, Active;
    if n == 0 {
      acts := [];
      NoneFanned(c);
    } else {
      acts := AllWorkersCanRun(c, n - 1);
      LaunchNext(c, n);
      RunSnoc(c, INIT, acts, Fanned(n - 1), Launch);
      acts := acts + [Launch];
    }
  }

  lemma NoneFanned(c: Config)
    ensures Run(c, INIT, [], Fanned(0)) && Active(Fanned(0).workers) == 0
  {
    assert Fanned(0).workers == INIT.workers;
  }

  lemma LaunchNext(c: Config, n: nat)
    requires 0 < n <= c.workers && n <= |c.resolvers|
    ensures Enabled(c, Fanned(n - 1), Launch) && Apply(c, Fanned(n - 1), Launch) == Fanned(n)
    ensures Active(Fanned(n).workers) == n
  {
    hide Active;
    ActiveAll(n - 1);
    ActiveAll(n);
    assert Fanned(n - 1).workers + [Verifying] == Fanned(n).workers;
  }

  lemma {:induction false} ActiveAll(n: nat)
    ensures Active(seq(n, _ => Verifying)) == n
  {
    if n > 0 {
      ActiveAll(n - 1);
      assert seq(n, _ => Verifying)[..n - 1] == seq(n - 1, _ => Verifying);
    }
  }

  lemma {:induction false} RunSnoc(c: Config, s: State, acts: seq<Action>, t: State, a: Action)
    requires Run(c, s, acts, t) && Enabled(c, t, a)
    ensures Run(c, s, acts + [a], Apply(c, t, a))
    decreases |acts|
  {
    if acts == [] {
      assert [a][1..] == [];
    } else {
      RunSnoc(c, Apply(c, s, acts[0]), acts[1..], t, a);
      assert (acts + [a])[1..] == acts[1..] + [a];
    }
  }

  /** Every recorded result is one that a verification of its resolver can have; so one that is
      verified is WORKING. */
  lemma VerifiedWork(c: Config, acts: seq<Action>, t: State)
    requires Run(c, INIT, acts, t)
    ensures forall k :: 0 <= k < |t.results| ==>
              var e := t.results[k];
              && e.index < |c.resolvers| && Possible(c.resolvers[e.index], e.result)
              && (e.result.verified ==> e.result.status == Working)
  {
    hide ReadyInv, Run, Possible;
    InitInv(c);
    RunKeepsInv(c, INIT, acts, t);
    forall k | 0 <= k < |t.results| ensures Possible(c.resolvers[t.results[k].index], t.results[k].result) {
      PossibleExactly(c.resolvers[t.results[k].index], t.results[k].result);
    }
  }

  lemma {:induction false} TotalWeightUpdate(workers: seq<Worker>, i: nat, w: Worker)
    requires i < |workers|
    ensures TotalWeight(workers[i := w]) == TotalWeight(workers) - Weight(workers[i]) + Weight(w)
  {
    var n := |workers| - 1;
    if i < n {
      TotalWeightUpdate(workers[..n], i, w);
      assert workers[i := w][..n] == workers[..n][i := w];
    } else {
      assert workers[i := w][..n] == workers[..n];
    }
  }

  lemma StepsShrink(c: Config, s: State, a: Action)
    requires ResultsInv(c, s) && Enabled(c, s, a)
    ensures 0 <= Remaining(c, Apply(c, s, a)) < Remaining(c, s)
  {
    hide Apply, ResultsInv, Remaining;
    StepKeepsResults(c, s, a);
    RemainingIsNat(c, Apply(c, s, a));
    StepLess(c, s, a);
  }

  lemma RemainingIsNat(c: Config, s: State)
    requires ResultsInv(c, s)
    ensures Remaining(c, s) >= 0
  {
    hide TotalWeight, Active, Recorded;
  }

  lemma StepLess(c: Config, s: State, a: Action)
    requires Enabled(c, s, a)
    ensures Remaining(c, Apply(c, s, a)) < Remaining(c, s)
  {
    hide TotalWeight, Active, Select, Possible;
    match a
    case Launch => TotalWeightSnoc(s.workers);
    case Record(i, result) => TotalWeightUpdate(s.workers, i, ApplyRecord(c, s, i, result).workers[i]);
    case ReadyReturns(i) => TotalWeightUpdate(s.workers, i, Leaving);
    case Leave(i) => TotalWeightUpdate(s.workers, i, Gone);
    case Collect =>
    case LateReadyReturns =>
  }

  lemma TotalWeightSnoc(workers: seq<Worker>)
    ensures TotalWeight(workers + [Verifying]) == TotalWeight(workers) + 3
  {
    assert (workers + [Verifying])[..|workers|] == workers;
  }

  lemma {:induction false} RunShrinks(c: Config, s: State, acts: seq<Action>, t: State)
    requires ResultsInv(c, s) && Run(c, s, acts, t)
    ensures 0 <= Remaining(c, t) && |acts| <= Remaining(c, s) - Remaining(c, t)
    decreases |acts|
  {
    if acts == [] {
      assert Remaining(c, s) >= 0;
    } else {
      StepsShrink(c, s, acts[0]);
      StepKeepsResults(c, s, acts[0]);
      RunShrinks(c, Apply(c, s, acts[0]), acts[1..], t);
    }
  }

  ghost predicate CanStep(c: Config, s: State) {
    exists a :: Enabled(c, s, a)
  }

  lemma SomeWorkerSteps(c: Config, s: State, i: nat)
    requires ResultsInv(c, s) && i < |s.workers| && s.workers[i] != Gone
    ensures CanStep(c, s)
  {
    match s.workers[i]
    case Verifying =>
      var result := VerifyResult(c.resolvers[i], Timeout, false, 0);
      PossibleExactly(c.resolvers[i], result);
      assert Enabled(c, s, Record(i, result));
    case InReady => assert Enabled(c, s, ReadyReturns(i));
    case Leaving => assert Enabled(c, s, Leave(i));
  }

  /** The protocol cannot run forever, and it gets stuck before returning exactly when there is
      something to scan but the channel has no capacity: every run takes at most 4n + 2 steps,
      and a state that has not returned can step unless workers is 0 and resolvers is not empty. */
  lemma ScanTerminates(c: Config, acts: seq<Action>, t: State)
    requires Run(c, INIT, acts, t)
    ensures |acts| <= 4 * |c.resolvers| + 2
    ensures t.main != Returned ==> (CanStep(c, t) <==> c.workers > 0 || c.resolvers == [])
  {
    hide Run, ResultsInv, ReadyInv, CanStep;
    InitInv(c);
    RunShrinks(c, INIT, acts, t);
    RunKeepsInv(c, INIT, acts, t);
    if t.main != Returned { NotStuck(c, t); }
  }

  lemma NotStuck(c: Config, t: State)
    requires ResultsInv(c, t) && t.main != Returned
    ensures CanStep(c, t) <==> c.workers > 0 || c.resolvers == []
  {
    ActiveZero(t.workers);
    if t.main == InLateReady {
      assert Enabled(c, t, LateReadyReturns);
    } else if i: nat :| i < |t.workers| && t.workers[i] != Gone {
      SomeWorkerSteps(c, t, i);
    } else if |t.workers| == |c.resolvers| {
      assert Enabled(c, t, Collect);
    } else if c.workers > 0 {
      assert Enabled(c, t, Launch);
    }
  }
}

/**
 * The resolver pool of the older Python proxy (dns-mux.py): the healthy list is rebuilt only when
 * a resolver changes side, and in round-robin mode an ever-growing index deals it out in turn.
 */
module RoundRobin {
  import opened Options

  const MAX_FAIL_STREAK: nat := 3

  /** What Python raises. */
  datatype Error = IndexError | ZeroDivisionError | KeyError

  datatype Answer<R> = Ok(value: R) | Raised(error: Error)

  datatype State<R(==)> = State(
    resolvers: seq<R>,
    random: bool,
    healthy: map<R, bool>,
    healthyCache: seq<R>,
    failStreak: map<R, nat>,
    rrIndex: nat)

  datatype Op<R> =
    | GetNext(choice: nat)            // the index a random choice would take
    | MarkSuccess(resolver: R)
    | MarkFailure(resolver: R)
    | HealthCheck(alive: seq<bool>)   // the probe outcomes, in list order

  // ---- Specification ----

  function Select<R(==)>(rs: seq<R>, healthy: map<R, bool>): seq<R> {
    if rs == [] then []
    else
      var r := rs[|rs| - 1];
      Select(rs[..|rs| - 1], healthy) + if r in healthy && healthy[r] then [r] else []
  }

  function Derived<R(==)>(rs: seq<R>, healthy: map<R, bool>): seq<R> {
    if Select(rs, healthy) == [] then rs else Select(rs, healthy)
  }

  function Streak<R(==)>(failStreak: map<R, nat>, r: R): nat {
    if r in failStreak then failStreak[r] else 0
  }

  /** The health map after the first probe outcomes are stored; a resolver listed twice keeps its last. */
  function Probed<R(==)>(healthy: map<R, bool>, rs: seq<R>, alive: seq<bool>): map<R, bool>
    requires |rs| == |alive|
  {
    if rs == [] then healthy
    else Probed(healthy, rs[..|rs| - 1], alive[..|rs| - 1])[rs[|rs| - 1] := alive[|rs| - 1]]
  }

  function Cleared<R(==)>(failStreak: map<R, nat>, rs: seq<R>, alive: seq<bool>): map<R, nat>
    requires |rs| == |alive|
  {
    if rs == [] then failStreak
    else
      var before := Cleared(failStreak, rs[..|rs| - 1], alive[..|rs| - 1]);
      if alive[|rs| - 1] then before[rs[|rs| - 1] := 0] else before
  }

  predicate Fits<R>(s: State<R>, op: Op<R>) {
    match op
    case GetNext(choice) => s.healthyCache != [] ==> choice < |s.healthyCache|
    case HealthCheck(alive) => |alive| == |s.resolvers|
    case _ => true
  }

  function Apply<R(==)>(s: State<R>, op: Op<R>): State<R>
    requires Fits(s, op)
  {
    match op
    case GetNext(_) =>
      if s.random || s.healthyCache == [] then s else s.(rrIndex := s.rrIndex + 1)
    case MarkSuccess(r) =>
      if r !in s.healthy then s
      else
        var up := s.healthy[r := true];
        s.(healthy := up, failStreak := s.failStreak[r := 0],
           healthyCache := if s.healthy[r] then s.healthyCache else Derived(s.resolvers, up))
    case MarkFailure(r) =>
      var streak := Streak(s.failStreak, r) + 1;
      var counted := s.(failStreak := s.failStreak[r := streak]);
      if streak >= MAX_FAIL_STREAK && r in s.healthy && s.healthy[r] then
        var down := s.healthy[r := false];
        counted.(healthy := down, healthyCache := Derived(s.resolvers, down))
      else counted
    case HealthCheck(alive) =>
      var checked := Probed(s.healthy, s.resolvers, alive);
      s.(healthy := checked, failStreak := Cleared(s.failStreak, s.resolvers, alive),
         healthyCache := Derived(s.resolvers, checked))
  }

  /** The position the next call deals out in round-robin mode. */
  function Turn<R>(s: State<R>): nat
    requires s.healthyCache != []
  {
    Wrap(s.rrIndex, |s.healthyCache|)
  }

  function Reply<R>(s: State<R>, choice: nat): Answer<R>
    requires Fits(s, GetNext(choice))
  {
    if s.healthyCache == [] then Raised(if s.random then IndexError else ZeroDivisionError)
    else if s.random then Ok(s.healthyCache[choice])
    else Ok(s.healthyCache[Turn(s)])
  }

  /** The error an operation raises, after the changes that Apply gives it. */
  function Fault<R>(s: State<R>, op: Op<R>): Option<Error>
    requires Fits(s, op)
  {
    match op
    case GetNext(choice) => (match Reply(s, choice) case Ok(_) => None case Raised(e) => Some(e))
    case MarkSuccess(r) => if r in s.healthy then None else Some(KeyError)
    case MarkFailure(r) =>
      if Streak(s.failStreak, r) + 1 >= MAX_FAIL_STREAK && r !in s.healthy then Some(KeyError) else None
    case HealthCheck(_) => None
  }

  // ---- The derived list is right after every operation ----

  ghost predicate Wf<R(!new)>(s: State<R>) {
    && s.healthyCache == Derived(s.resolvers, s.healthy)
    && (forall r: R :: r in s.healthy <==> r in s.resolvers)
  }

  lemma {:induction false} ProbedKeys<R(!new)>(healthy: map<R, bool>, rs: seq<R>, alive: seq<bool>)
    requires |rs| == |alive|
    ensures forall r: R :: r in Probed(healthy, rs, alive) <==> r in healthy || r in rs
  {
    if rs != [] {
      ProbedKeys(healthy, rs[..|rs| - 1], alive[..|rs| - 1]);
      assert rs == rs[..|rs| - 1] + [rs[|rs| - 1]];
    }
  }

  /** Rebuilding only when a resolver changes side is enough to keep the list right. */
  lemma ApplyKeepsWf<R(!new)>(s: State<R>, op: Op<R>)
    requires Wf(s) && Fits(s, op)
    ensures Wf(Apply(s, op))
  {
    match op
    case MarkSuccess(r) =>
      if r in s.healthy && s.healthy[r] { assert s.healthy[r := true] == s.healthy; }
    case HealthCheck(alive) => ProbedKeys(s.healthy, s.resolvers, alive);
    case _ =>
  }

  // ---- Runs ----

  predicate Runs<R>(s: State<R>, ops: seq<Op<R>>)
    decreases |ops|
  {
    ops == [] || (Fits(s, ops[0]) && Runs(Apply(s, ops[0]), ops[1..]))
  }

  /** The healthy list is the same before and after each operation of the run. */
  predicate Steady<R(==)>(s: State<R>, ops: seq<Op<R>>)
    requires Runs(s, ops)
    decreases |ops|
  {
    ops == [] ||
    (Apply(s, ops[0]).healthyCache == s.healthyCache && Steady(Apply(s, ops[0]), ops[1..]))
  }

  /** Which errors are left: exactly those of an empty list and of resolvers that were never listed. */
  lemma RaisesExactlyWhen<R(!new)>(s: State<R>, op: Op<R>)
    requires Wf(s) && Fits(s, op)
    ensures Fault(s, op).Some? <==>
            match op
            case GetNext(_) => s.resolvers == []
            case MarkSuccess(r) => r !in s.resolvers
            case MarkFailure(r) => r !in s.resolvers && Streak(s.failStreak, r) >= 2
            case HealthCheck(_) => false
  {}

  /** No operation of the run raises an error. */
  predicate Quiet<R(==)>(s: State<R>, ops: seq<Op<R>>)
    requires Runs(s, ops)
    decreases |ops|
  {
    ops == [] || (Fault(s, ops[0]).None? && Quiet(Apply(s, ops[0]), ops[1..]))
  }

  /** Over whole runs: a pool with resolvers whose callers mark only listed ones never raises. */
  lemma {:induction false} ListedMarksRaiseNothing<R(!new)>(s: State<R>, ops: seq<Op<R>>)
    requires Wf(s) && Runs(s, ops) && s.resolvers != []
    requires forall i :: 0 <= i < |ops| && (ops[i].MarkSuccess? || ops[i].MarkFailure?) ==>
               ops[i].resolver in s.resolvers
    ensures Quiet(s, ops)
    decreases |ops|
  {
    hide Wf;
    if ops != [] {
      ApplyKeepsWf(s, ops[0]);
      RaisesExactlyWhen(s, ops[0]);
      ListedMarksRaiseNothing(Apply(s, ops[0]), ops[1..]);
    }
  }

  /** What the calls to get_next answer, in order. */
  function Replies<R>(s: State<R>, ops: seq<Op<R>>): seq<Answer<R>>
    requires Runs(s, ops)
    decreases |ops|
  {
    if ops == [] then []
    else
      (if ops[0].GetNext? then [Reply(s, ops[0].choice)] else []) + Replies(Apply(s, ops[0]), ops[1..])
  }

  /** The list positions that these calls deal out in round-robin mode, in order. */
  function Positions<R>(s: State<R>, ops: seq<Op<R>>): seq<nat>
    requires Runs(s, ops)
    decreases |ops|
  {
    if ops == [] then []
    else
      (if ops[0].GetNext? && s.healthyCache != [] then [Turn(s)] else []) + Positions(Apply(s, ops[0]), ops[1..])
  }

  /** A place counted from the head of a list of `n`, round and round. */
  function Wrap(place: nat, n: nat): (r: nat)
    requires n > 0
    ensures r < n
  {
    place % n
  }

  /** How far position `p` lies past the start, round the list. */
  function Offset(p: nat, start: nat, n: nat): nat
    requires n > 0
  {
    (p - start) % n
  }

  lemma Divide(a: int, n: nat, q: int, r: nat)
    requires r < n && a == q * n + r
    ensures a / n == q && a % n == r
  {
    var d := a / n - q;
    assert d * n == r - a % n by { assert (a / n) * n + a % n == a; }
    assert d >= 1 ==> d * n >= n;
    assert d <= -1 ==> d * n <= -1 * n;
  }

  /** The i-th position is the one `i` places on from `start`, and the i-th answer its element. */
  ghost predicate InTurn<R>(cache: seq<R>, start: nat, positions: seq<nat>, replies: seq<Answer<R>>)
    requires cache != []
  {
    && |positions| == |replies|
    && forall i: nat :: i < |positions| ==>
         positions[i] == Wrap(start + i, |cache|) && replies[i] == Ok(cache[positions[i]])
  }

  /** The i-th answer of a steady window is the list's element i places on, whatever runs between. */
  lemma {:induction false} RepliesTakeTurns<R>(s: State<R>, ops: seq<Op<R>>)
    requires Runs(s, ops) && Steady(s, ops) && !s.random && s.healthyCache != []
    ensures InTurn(s.healthyCache, s.rrIndex, Positions(s, ops), Replies(s, ops))
    decreases |ops|
  {
    hide Wrap, InTurn;
    if ops == [] {
      NoTurns(s.healthyCache, s.rrIndex);
    } else {
      var op, t, rest := ops[0], Apply(s, ops[0]), ops[1..];
      RepliesTakeTurns(t, rest);
      if op.GetNext? {
        TurnsShift(s.healthyCache, s.rrIndex, Positions(t, rest), Replies(t, rest));
        assert Positions(s, ops) == [Turn(s)] + Positions(t, rest);
        assert Replies(s, ops) == [Ok(s.healthyCache[Turn(s)])] + Replies(t, rest);
      } else {
        assert Positions(s, ops) == Positions(t, rest) && Replies(s, ops) == Replies(t, rest);
      }
    }
  }

  lemma NoTurns<R>(cache: seq<R>, start: nat)
    requires cache != []
    ensures InTurn(cache, start, [], [])
  {}

  /** The turns from `start + 1` on, with the turn at `start` before them. */
  lemma TurnsShift<R>(cache: seq<R>, start: nat, positions: seq<nat>, replies: seq<Answer<R>>)
    requires cache != [] && InTurn(cache, start + 1, positions, replies)
    ensures var p := Wrap(start, |cache|);
            InTurn(cache, start, [p] + positions, [Ok(cache[p])] + replies)
  {
    hide Wrap;
    var p := Wrap(start, |cache|);
    var ps, rs := [p] + positions, [Ok(cache[p])] + replies;
    forall i: nat | i < |ps| ensures ps[i] == Wrap(start + i, |cache|) && rs[i] == Ok(cache[ps[i]]) {
      if i > 0 {
        assert ps[i] == positions[i - 1] && rs[i] == replies[i - 1];
        assert start + 1 + (i - 1) == start + i;
      }
    }
  }

  /** In plain arithmetic: the i-th answer of a steady window is the element at rrIndex + i, round
      the list. */
  lemma AnswersInOrder<R>(s: State<R>, ops: seq<Op<R>>)
    requires Runs(s, ops) && Steady(s, ops) && !s.random && s.healthyCache != []
    ensures forall i: nat :: i < |Replies(s, ops)| ==>
              Replies(s, ops)[i] == Ok(s.healthyCache[(s.rrIndex + i) % |s.healthyCache|])
  {
    RepliesTakeTurns(s, ops);
  }

  // ---- Fairness ----

  /** How many of `c` consecutive turns from `start` fall on position `p`. */
  function Share(start: nat, c: nat, n: nat, p: nat): nat
    requires n > 0
  {
    if c == 0 then 0
    else Share(start, c - 1, n, p) + if Wrap(start + c - 1, n) == p then 1 else 0
  }

  /** The turn after `c` falls on `p` exactly when `p` lies `c` places past the start, round the list. */
  lemma TurnFalls(start: nat, c: nat, n: nat, p: nat)
    requires p < n
    ensures Wrap(start + c, n) == p <==> Offset(p, start, n) == Wrap(c, n)
  {
    var qs, qc, qp := (start + c) / n, c / n, (p - start) / n;
    assert start + c == qs * n + Wrap(start + c, n);
    assert c == qc * n + Wrap(c, n);
    assert p - start == qp * n + Offset(p, start, n);
    if Wrap(start + c, n) == p {
      assert p - start == (qc - qs) * n + Wrap(c, n);
      Divide(p - start, n, qc - qs, Wrap(c, n));
    }
    if Offset(p, start, n) == Wrap(c, n) {
      assert start + c == (qc - qp) * n + p;
      Divide(start + c, n, qc - qp, p);
    }
  }

  /** Exactly which positions get the extra turn. */
  lemma {:induction false} ShareIsEven(start: nat, k: nat, m: nat, n: nat, p: nat)
    requires p < n && m < n
    ensures Share(start, k * n + m, n, p) == k + if Offset(p, start, n) < m then 1 else 0
    decreases k, m
  {
    var c := k * n + m;
    if m > 0 {
      ShareIsEven(start, k, m - 1, n, p);
      TurnFalls(start, c - 1, n, p);
      Divide(c - 1, n, k, m - 1);
    } else if k > 0 {
      assert c - 1 == (k - 1) * n + (n - 1);
      ShareIsEven(start, k - 1, n - 1, n, p);
      TurnFalls(start, c - 1, n, p);
      Divide(c - 1, n, k - 1, n - 1);
    }
  }

  /** The positions at most `m - 1` places past the start. */
  function Favoured(start: nat, m: nat, n: nat): set<nat>
    requires n > 0
  {
    set p: nat | p < n && Offset(p, start, n) < m
  }

  lemma {:induction false} FavouredCount(start: nat, m: nat, n: nat)
    requires m <= n && n > 0
    ensures |Favoured(start, m, n)| == m
  {
    hide Wrap, Offset;
    if m > 0 {
      FavouredCount(start, m - 1, n);
      var q := Wrap(start + (m - 1), n);
      WrapSmall(m - 1, n);
      forall p: nat | p < n ensures Offset(p, start, n) == m - 1 <==> p == q {
        TurnFalls(start, m - 1, n, p);
      }
      assert Favoured(start, m, n) == Favoured(start, m - 1, n) + {q};
    } else {
      assert Favoured(start, m, n) == {};
    }
  }

  lemma WrapSmall(i: nat, n: nat)
    requires i < n
    ensures Wrap(i, n) == i
  {
    Divide(i, n, 0, i);
  }

  /** How often `x` occurs. */
  function Times<X(==)>(xs: seq<X>, x: X): nat {
    if xs == [] then 0
    else Times(xs[..|xs| - 1], x) + if xs[|xs| - 1] == x then 1 else 0
  }

  /** The positions below `n` that are dealt out exactly `c` times. */
  function DealtTimes(positions: seq<nat>, n: nat, c: nat): set<nat> {
    set p: nat | p < n && Times(positions, p) == c
  }

  predicate Distinct<R(==)>(s: seq<R>) {
    forall i, j :: 0 <= i < j < |s| ==> s[i] != s[j]
  }

  lemma {:induction false} TimesIsShare(positions: seq<nat>, start: nat, n: nat, p: nat)
    requires p < n
    requires forall i: nat :: i < |positions| ==> positions[i] == Wrap(start + i, n)
    ensures Times(positions, p) == Share(start, |positions|, n, p)
  {
    hide Wrap;
    if positions != [] {
      TimesIsShare(positions[..|positions| - 1], start, n, p);
    }
  }

  /**
   * Round-robin is exactly fair. Take any window with k * n + m calls and an unchanging list of n
   * resolvers: each list position is dealt out k or k + 1 times, and exactly m of them k + 1
   * times, wherever the index stood and whatever else the pool did in between.
   */
  lemma RoundRobinIsFair<R>(s: State<R>, ops: seq<Op<R>>, k: nat, m: nat)
    requires Runs(s, ops) && Steady(s, ops) && !s.random && m < |s.healthyCache|
    requires |Replies(s, ops)| == k * |s.healthyCache| + m
    ensures forall p: nat :: p < |s.healthyCache| ==> Times(Positions(s, ops), p) in {k, k + 1}
    ensures |DealtTimes(Positions(s, ops), |s.healthyCache|, k + 1)| == m
  {
    hide Wrap, Offset, Times, Share, Replies, Positions, Steady, Runs;
    var n, start, positions := |s.healthyCache|, s.rrIndex, Positions(s, ops);
    RepliesTakeTurns(s, ops);
    forall p: nat | p < n ensures Times(positions, p) == k + if Offset(p, start, n) < m then 1 else 0 {
      TimesIsShare(positions, start, n, p);
      ShareIsEven(start, k, m, n, p);
    }
    FavouredCount(start, m, n);
    var extra := DealtTimes(positions, n, k + 1);
    forall p: nat ensures p in extra <==> p in Favoured(start, m, n) {
      if p < n { assert Times(positions, p) == k + if Offset(p, start, n) < m then 1 else 0; }
    }
    assert Favoured(start, m, n) == extra;
  }

  /** In a list without repetitions a resolver is named as often as its position is dealt out. */
  lemma ResolverIsNamedInTurn<R>(s: State<R>, ops: seq<Op<R>>, p: nat)
    requires Runs(s, ops) && Steady(s, ops) && !s.random
    requires p < |s.healthyCache| && Distinct(s.healthyCache)
    ensures Times(Replies(s, ops), Ok(s.healthyCache[p])) == Times(Positions(s, ops), p)
  {
    hide Times, Runs, Steady, Replies, Positions;
    RepliesTakeTurns(s, ops);
    SameTimes(Replies(s, ops), Positions(s, ops), s.healthyCache, p);
  }

  lemma {:induction false} SameTimes<R>(replies: seq<Answer<R>>, positions: seq<nat>, cache: seq<R>, p: nat)
    requires p < |cache| && Distinct(cache) && |replies| == |positions|
    requires forall i: nat :: i < |replies| ==> positions[i] < |cache| && replies[i] == Ok(cache[positions[i]])
    ensures Times(replies, Ok(cache[p])) == Times(positions, p)
  {
    if replies != [] {
      var n := |replies| - 1;
      SameTimes(replies[..n], positions[..n], cache, p);
      assert cache[positions[n]] == cache[p] <==> positions[n] == p;
    }
  }

  // ---- The class ----

  class ResolverPool<R(!new, ==)> {
    const resolvers: seq<R>
    const random: bool
    var healthy: map<R, bool>
    var healthyCache: seq<R>
    var failStreak: map<R, nat>
    var rrIndex: nat

    ghost function Value(): State<R>
      reads this
    {
      State(resolvers, random, healthy, healthyCache, failStreak, rrIndex)
    }

    constructor (resolvers: seq<R>, random: bool)
      ensures Wf(Value())
      ensures healthyCache == resolvers && rrIndex == 0 && this.random == random && this.resolvers == resolvers
      ensures (forall r :: r in healthy ==> healthy[r]) && failStreak == map[]
    {
      this.resolvers := resolvers;
      this.random := random;
      healthy := map r | r in resolvers :: true;
      healthyCache := resolvers;
      failStreak := map[];
      rrIndex := 0;
      new;
      SelectAll(resolvers, healthy);
    }

    method RebuildHealthyCache()
      modifies this`healthyCache
      ensures healthyCache == Derived(resolvers, healthy)
    {
      healthyCache := [];
      for i := 0 to |resolvers|
        invariant healthyCache == Select(resolvers[..i], healthy)
      {
        var r := resolvers[i];
        assert resolvers[..i + 1][..i] == resolvers[..i];
        if r in healthy && healthy[r] { healthyCache := healthyCache + [r]; }
      }
      assert resolvers[..|resolvers|] == resolvers;
      if healthyCache == [] { healthyCache := resolvers; }
    }

    method GetNext(choice: nat) returns (answer: Answer<R>)
      requires Fits(Value(), Op.GetNext(choice))
      modifies this`rrIndex
      ensures Value() == Apply(old(Value()), Op.GetNext(choice))
      ensures answer == Reply(old(Value()), choice)
    {
      var cache := healthyCache;
      if random {
        if cache == [] { return Raised(IndexError); }
        return Ok(cache[choice]);
      }
      if |cache| == 0 { return Raised(ZeroDivisionError); }
      var idx := rrIndex % |cache|;
      rrIndex := rrIndex + 1;
      return Ok(cache[idx]);
    }

    method MarkSuccess(resolver: R) returns (raised: Option<Error>)
      modifies this`healthy, this`failStreak, this`healthyCache
      ensures Value() == Apply(old(Value()), Op.MarkSuccess(resolver))
      ensures raised == Fault(old(Value()), Op.MarkSuccess(resolver))
    {
      if resolver !in healthy { return Some(KeyError); }
      var wasUnhealthy := !healthy[resolver];
      healthy := healthy[resolver := true];
      failStreak := failStreak[resolver := 0];
      if wasUnhealthy { RebuildHealthyCache(); }
      return None;
    }

    method MarkFailure(resolver: R) returns (raised: Option<Error>)
      modifies this`healthy, this`failStreak, this`healthyCache
      ensures Value() == Apply(old(Value()), Op.MarkFailure(resolver))
      ensures raised == Fault(old(Value()), Op.MarkFailure(resolver))
    {
      failStreak := failStreak[resolver := Streak(failStreak, resolver) + 1];
      if failStreak[resolver] >= MAX_FAIL_STREAK {
        if resolver !in healthy { return Some(KeyError); }
        if healthy[resolver] {
          healthy := healthy[resolver := false];
          RebuildHealthyCache();
        }
      }
      return None;
    }

    method ApplyProbes(alive: seq<bool>)
      requires |alive| == |resolvers|
      modifies this`healthy, this`failStreak, this`healthyCache
      ensures Value() == Apply(old(Value()), Op.HealthCheck(alive))
    {
      for i := 0 to |resolvers|
        invariant healthyCache == old(healthyCache)
        invariant healthy == Probed(old(healthy), resolvers[..i], alive[..i])
        invariant failStreak == Cleared(old(failStreak), resolvers[..i], alive[..i])
      {
        assert resolvers[..i + 1][..i] == resolvers[..i] && alive[..i + 1][..i] == alive[..i];
        healthy := healthy[resolvers[i] := alive[i]];
        if alive[i] { failStreak := failStreak[resolvers[i] := 0]; }
      }
      assert resolvers[..|resolvers|] == resolvers && alive[..|alive|] == alive;
      RebuildHealthyCache();
    }
  }

  lemma {:induction false} SelectAll<R>(rs: seq<R>, healthy: map<R, bool>)
    requires forall i :: 0 <= i < |rs| ==> rs[i] in healthy && healthy[rs[i]]
    ensures Select(rs, healthy) == rs
  {
    if rs != [] { SelectAll(rs[..|rs| - 1], healthy); }
  }
}

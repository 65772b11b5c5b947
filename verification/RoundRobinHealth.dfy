/**
 * Health in the Python pool as a function of the history: as in the Go pool, but down after three
 * failures; and which resolvers are dealt out.
 */
module RoundRobinHealth {
  import opened Options
  import opened RoundRobin
  import opened Filters
  import P = PoolModel

  type Event = P.Event

  function ProbesOf<R(==)>(rs: seq<R>, alive: seq<bool>, r: R): seq<Event>
    requires |rs| == |alive|
  {
    if rs == [] then []
    else
      ProbesOf(rs[..|rs| - 1], alive[..|rs| - 1], r)
      + if rs[|rs| - 1] == r then [P.Probed(alive[|rs| - 1])] else []
  }

  /** What an operation means for one listed resolver. */
  function EventsOf<R(==)>(rs: seq<R>, op: Op<R>, r: R): seq<Event> {
    match op
    case MarkSuccess(x) => if x == r then [P.Succeeded] else []
    case MarkFailure(x) => if x == r then [P.Failed] else []
    case HealthCheck(alive) => if |alive| == |rs| then ProbesOf(rs, alive, r) else []
    case GetNext(_) => []
  }

  function HistoryOf<R(==)>(rs: seq<R>, ops: seq<Op<R>>, r: R): seq<Event> {
    if ops == [] then [] else HistoryOf(rs, ops[..|ops| - 1], r) + EventsOf(rs, ops[|ops| - 1], r)
  }

  /** Since the last success or live probe neither a dead probe nor three failures. */
  ghost predicate Up(h: seq<Event>) {
    P.Probed(false) !in P.SinceReset(h) && P.Failures(P.SinceReset(h)) < 3
  }

  ghost predicate Follows(healthy: bool, streak: nat, h: seq<Event>) {
    (healthy <==> Up(h)) && streak == P.Failures(P.SinceReset(h))
  }

  /** One event. */
  lemma {:induction false} FollowsSnoc(healthy: bool, streak: nat, h: seq<Event>, e: Event)
    requires Follows(healthy, streak, h)
    ensures match e
            case Succeeded => Follows(true, 0, h + [e])
            case Failed => Follows(healthy && streak + 1 < 3, streak + 1, h + [e])
            case Probed(alive) => Follows(alive, if alive then 0 else streak, h + [e])
  {
    hide P.SinceReset, P.Failures;
    P.HistorySnoc(h, e);
    P.HistorySnoc(P.SinceReset(h), e);
    P.NoFailures();
  }

  lemma {:induction false} ProbesFollow<R>(s: State<R>, rs: seq<R>, alive: seq<bool>, r: R, h: seq<Event>)
    requires |rs| == |alive| && r in s.healthy && Follows(s.healthy[r], Streak(s.failStreak, r), h)
    ensures r in Probed(s.healthy, rs, alive)
    ensures Follows(Probed(s.healthy, rs, alive)[r], Streak(Cleared(s.failStreak, rs, alive), r),
                    h + ProbesOf(rs, alive, r))
  {
    hide Follows;
    if rs == [] {
      assert h + [] == h;
    } else {
      var n := |rs| - 1;
      ProbesFollow(s, rs[..n], alive[..n], r, h);
      var h1 := h + ProbesOf(rs[..n], alive[..n], r);
      if rs[n] == r {
        FollowsSnoc(Probed(s.healthy, rs[..n], alive[..n])[r],
                    Streak(Cleared(s.failStreak, rs[..n], alive[..n]), r), h1, P.Probed(alive[n]));
        assert h1 + [P.Probed(alive[n])] == h + ProbesOf(rs, alive, r);
      } else {
        assert h1 == h + ProbesOf(rs, alive, r);
      }
    }
  }

  lemma OperationFollows<R(!new)>(s: State<R>, op: Op<R>, r: R, h: seq<Event>)
    requires Wf(s) && Fits(s, op) && r in s.resolvers && Follows(s.healthy[r], Streak(s.failStreak, r), h)
    ensures var t := Apply(s, op);
            t.resolvers == s.resolvers && r in t.healthy
            && Follows(t.healthy[r], Streak(t.failStreak, r), h + EventsOf(s.resolvers, op, r))
  {
    hide Follows, Derived;
    assert h + [] == h;
    match op
    case MarkSuccess(x) => if x == r { FollowsSnoc(s.healthy[r], Streak(s.failStreak, r), h, P.Succeeded); }
    case MarkFailure(x) => if x == r { FollowsSnoc(s.healthy[r], Streak(s.failStreak, r), h, P.Failed); }
    case HealthCheck(alive) => ProbesFollow(s, s.resolvers, alive, r, h);
    case GetNext(_) =>
  }

  /** A new pool, and the pool after a run from it. */
  function Start<R(==)>(rs: seq<R>, random: bool): State<R> {
    State(rs, random, map r | r in rs :: true, rs, map[], 0)
  }

  function RunTo<R(==)>(s: State<R>, ops: seq<Op<R>>): Option<State<R>> {
    if ops == [] then Some(s)
    else
      var u := RunTo(s, ops[..|ops| - 1]);
      if u.Some? && Fits(u.value, ops[|ops| - 1]) then Some(Apply(u.value, ops[|ops| - 1])) else None
  }

  lemma {:induction false} RunFollows<R(!new)>(rs: seq<R>, random: bool, ops: seq<Op<R>>, t: State<R>, r: R)
    requires RunTo(Start(rs, random), ops) == Some(t) && r in rs
    ensures Wf(t) && t.resolvers == rs && r in t.healthy
    ensures Follows(t.healthy[r], Streak(t.failStreak, r), HistoryOf(rs, ops, r))
    decreases |ops|
  {
    hide Follows, Wf, Apply;
    if ops == [] {
      StartFollows(rs, random, r);
    } else {
      var u := RunTo(Start(rs, random), ops[..|ops| - 1]).value;
      RunFollows(rs, random, ops[..|ops| - 1], u, r);
      ApplyKeepsWf(u, ops[|ops| - 1]);
      OperationFollows(u, ops[|ops| - 1], r, HistoryOf(rs, ops[..|ops| - 1], r));
    }
  }

  lemma StartFollows<R(!new)>(rs: seq<R>, random: bool, r: R)
    requires r in rs
    ensures var s := Start(rs, random);
            Wf(s) && r in s.healthy && Follows(s.healthy[r], Streak(s.failStreak, r), [])
  {
    P.NoFailures();
    SelectAll(rs, Start(rs, random).healthy);
  }

  lemma {:induction false} SelectFilters<R>(rs: seq<R>, healthy: map<R, bool>)
    ensures Filtered(rs, Select(rs, healthy), (r: R) => r in healthy && healthy[r], (r: R) => r)
  {
    var up, same := (r: R) => r in healthy && healthy[r], (r: R) => r;
    if rs == [] {
      FilterNone(up, same);
    } else {
      var before, last := rs[..|rs| - 1], rs[|rs| - 1];
      SelectFilters(before, healthy);
      FilterSnoc(before, Select(before, healthy), up, same, last);
      assert before + [last] == rs;
    }
  }

  /** What is dealt out, over runs: if some resolver is up by its history, exactly those that are, in
      list order; otherwise the whole list. */
  lemma DealsOutWhatIsUp<R(!new)>(rs: seq<R>, random: bool, ops: seq<Op<R>>, t: State<R>)
    requires RunTo(Start(rs, random), ops) == Some(t)
    ensures if exists k :: 0 <= k < |rs| && Up(HistoryOf(rs, ops, rs[k]))
            then Filtered(rs, t.healthyCache, (r: R) => Up(HistoryOf(rs, ops, r)), (r: R) => r)
            else t.healthyCache == rs
  {
    hide Up;
    if rs == [] {
      EmptyStays(random, ops, t);
    } else {
      RunFollows(rs, random, ops, t, rs[0]);
      var up, up', same := (r: R) => r in t.healthy && t.healthy[r], (r: R) => Up(HistoryOf(rs, ops, r)), (r: R) => r;
      SelectFilters(rs, t.healthy);
      forall k | 0 <= k < |rs| ensures up(rs[k]) == up'(rs[k]) { RunFollows(rs, random, ops, t, rs[k]); }
      FilterSame(rs, Select(rs, t.healthy), up, up', same);
      FilterEmpty(rs, Select(rs, t.healthy), up, same);
    }
  }

  lemma {:induction false} EmptyStays<R(!new)>(random: bool, ops: seq<Op<R>>, t: State<R>)
    requires RunTo(Start<R>([], random), ops) == Some(t)
    ensures t.resolvers == [] && t.healthyCache == []
    decreases |ops|
  {
    if ops != [] {
      EmptyStays(random, ops[..|ops| - 1], RunTo(Start<R>([], random), ops[..|ops| - 1]).value);
    }
  }
}

/**
 * The forwarding threads and the rescan channel together: MarkFailure captures the callback in
 * the very section that takes a resolver down, and from there on the channel of autoscan.go has
 * to lose nothing.  Every interleaving of both systems is a run of this one.
 */
module DownEvents {
  import opened Options
  import opened Dns
  import C = CacheModel
  import P = PoolModel
  import Pool
  import F = Forwarding
  import R = Rescan

  datatype State = State(service: F.State, scanner: R.State)

  /** A step of a thread or its surroundings, or of the scanner and the callbacks. */
  datatype Action = Service(step: F.Action) | Scanner(move: R.Action)

  /** The operation is a failure that takes its resolver down with a callback set. */
  predicate TakesDownWithCallback(p: P.Pool, op: P.Op) {
    op.Failure? && P.TakesDown(p, op.r) && p.hasCallback
  }

  /** The callback is captured by this step. */
  predicate Captures(s: State, a: F.Action)
    requires F.Enabled(s.service, a)
  {
    a.Fail? && TakesDownWithCallback(s.service.pool, P.Failure(s.service.threads[a.t].r))
  }

  predicate Enabled(s: State, a: Action) {
    match a
    case Service(b) => F.Enabled(s.service, b)
    case Scanner(b) => !b.Down? && R.Enabled(s.scanner, b)
  }

  function Apply(unpack: Unpacker, s: State, a: Action): State
    requires Enabled(s, a)
  {
    match a
    case Service(b) =>
      State(F.Apply(unpack, s.service, b), if Captures(s, b) then R.Apply(s.scanner, R.Down) else s.scanner)
    case Scanner(b) => s.(scanner := R.Apply(s.scanner, b))
  }

  ghost predicate Run(unpack: Unpacker, s: State, acts: seq<Action>, t: State)
    decreases |acts|
  {
    if acts == [] then t == s
    else Enabled(s, acts[0]) && Run(unpack, Apply(unpack, s, acts[0]), acts[1..], t)
  }

  /** The positions of a history of pool operations at which the callback is captured. */
  function DownAt(start: P.Pool, ops: seq<P.Op>): seq<nat>
    requires P.Runs(start, ops)
  {
    if ops == [] then []
    else
      var n := |ops| - 1;
      DownAt(start, ops[..n]) + if TakesDownWithCallback(P.After(start, ops[..n]), ops[n]) then [n] else []
  }

  lemma DownAtSnoc(start: P.Pool, ops: seq<P.Op>, op: P.Op)
    requires P.Runs(start, ops) && P.Enabled(P.After(start, ops), op)
    ensures P.Runs(start, ops + [op])
    ensures DownAt(start, ops + [op])
         == DownAt(start, ops) + if TakesDownWithCallback(P.After(start, ops), op) then [|ops|] else []
  {
    P.RunExtends(start, ops, op);
    assert (ops + [op])[..|ops|] == ops;
  }

  ghost predicate IsDownAt(start: P.Pool, ops: seq<P.Op>, k: nat)
    requires P.Runs(start, ops)
  {
    k < |ops| && P.Runs(start, ops[..k]) && TakesDownWithCallback(P.After(start, ops[..k]), ops[k])
  }

  /** Exactly the positions at which a failure takes a resolver down with a callback set, each
      once and in order. */
  lemma {:induction false} DownAtExactly(start: P.Pool, ops: seq<P.Op>)
    requires P.Runs(start, ops)
    ensures forall k: nat :: k in DownAt(start, ops) <==> IsDownAt(start, ops, k)
    ensures forall i, j :: 0 <= i < j < |DownAt(start, ops)| ==> DownAt(start, ops)[i] < DownAt(start, ops)[j]
  {
    hide TakesDownWithCallback;
    if ops != [] {
      var n := |ops| - 1;
      DownAtExactly(start, ops[..n]);
      assert forall i :: 0 <= i < |DownAt(start, ops[..n])| ==> DownAt(start, ops[..n])[i] in DownAt(start, ops[..n]);
      forall k: nat ensures k in DownAt(start, ops) <==> IsDownAt(start, ops, k) {
        if k < n { assert ops[..n][..k] == ops[..k]; }
      }
    }
  }

  // --- invariant

  ghost predicate Inv(resolvers: seq<P.Resolver>, s: State) {
    && F.PoolInv(resolvers, s.service) && R.Inv(s.scanner)
    && |s.scanner.callbacks| == |DownAt(P.New(resolvers), s.service.poolOps)|
  }

  /** The pool operation of a step, if it is one. */
  function OpOf(s: F.State, a: F.Action): Option<P.Op>
    requires F.Enabled(s, a)
  {
    match a
    case Send(t) => if s.threads[t].failed == Some(s.threads[t].r) then None else Some(P.Sent(s.threads[t].r))
    case Fail(t) => Some(P.Failure(s.threads[t].r))
    case Succeed(t, _, latency) => Some(P.Success(s.threads[t].r, latency))
    case Environment(op) => Some(op)
    case _ => None
  }

  /** A step extends the history by its operation, as long as nothing crashes. */
  lemma OpsExtend(unpack: Unpacker, s: F.State, a: F.Action)
    requires F.Enabled(s, a) && !F.Apply(unpack, s, a).crashed
    ensures var ops := F.Apply(unpack, s, a).poolOps;
            match OpOf(s, a)
            case None => ops == s.poolOps
            case Some(op) => ops == s.poolOps + [op] && P.Enabled(s.pool, op)
  {
    hide P.Apply, P.Enabled, C.Step, C.Reply, Pool.Rate, Pool.ScoreFrom;
  }

  lemma ServiceKeepsInv(resolvers: seq<P.Resolver>, unpack: Unpacker, s: State, a: F.Action)
    requires Inv(resolvers, s) && F.Enabled(s.service, a)
    ensures Inv(resolvers, Apply(unpack, s, Service(a)))
  {
    hide F.PoolInv, F.Apply, F.Enabled, R.Inv, DownAt, P.Run, TakesDownWithCallback;
    var start := P.New(resolvers);
    HistoryOf(resolvers, s.service);
    F.StepKeepsPoolInv(resolvers, unpack, s.service, a);
    HistoryOf(resolvers, F.Apply(unpack, s.service, a));
    OpsExtend(unpack, s.service, a);
    R.StepKeepsInv(s.scanner, R.Down);
    var op := OpOf(s.service, a);
    CapturesIsDown(s, a);
    if op.Some? { DownAtSnoc(start, s.service.poolOps, op.value); }
  }

  lemma HistoryOf(resolvers: seq<P.Resolver>, s: F.State)
    requires F.PoolInv(resolvers, s)
    ensures P.Runs(P.New(resolvers), s.poolOps) && P.After(P.New(resolvers), s.poolOps) == s.pool && !s.crashed
  {}

  lemma CapturesIsDown(s: State, a: F.Action)
    requires F.Enabled(s.service, a)
    ensures Captures(s, a) <==>
            OpOf(s.service, a).Some? && TakesDownWithCallback(s.service.pool, OpOf(s.service, a).value)
  {
    hide P.TakesDown;
  }

  lemma {:induction false} RunKeepsInv(resolvers: seq<P.Resolver>, unpack: Unpacker, s: State, acts: seq<Action>,
                                       t: State)
    requires Inv(resolvers, s) && Run(unpack, s, acts, t)
    ensures Inv(resolvers, t)
    decreases |acts|
  {
    hide F.PoolInv, F.Apply, F.Enabled, R.Inv, DownAt;
    if acts != [] {
      match acts[0] {
        case Service(b) => ServiceKeepsInv(resolvers, unpack, s, b);
        case Scanner(b) => ScannerKeepsInv(resolvers, unpack, s, b);
      }
      RunKeepsInv(resolvers, unpack, Apply(unpack, s, acts[0]), acts[1..], t);
    }
  }

  lemma ScannerKeepsInv(resolvers: seq<P.Resolver>, unpack: Unpacker, s: State, a: R.Action)
    requires Inv(resolvers, s) && !a.Down? && R.Enabled(s.scanner, a)
    ensures Inv(resolvers, Apply(unpack, s, Scanner(a)))
  {
    hide F.PoolInv, R.Inv, DownAt;
    R.StepKeepsInv(s.scanner, a);
  }

  // --- the guarantee

  ghost predicate Reachable(resolvers: seq<P.Resolver>, unpack: Unpacker, cacheOn: bool, maxSize: int, now: int,
                            acts: seq<Action>, t: State) {
    resolvers != [] && Run(unpack, State(F.Init(resolvers, cacheOn, maxSize, now), R.INIT), acts, t)
  }

  /** No down event is lost.  In every interleaving of all threads with the scanner, the captured
      callbacks are, one for one and in order, the tenth failures that take a resolver down with a
      callback set; and each is still pending, or a token waits, or a token consumed after it ran,
      hence after that failure, started a scan. */
  lemma NoDownEventIsLost(resolvers: seq<P.Resolver>, unpack: Unpacker, cacheOn: bool, maxSize: int, now: int,
                          acts: seq<Action>, t: State)
    requires Reachable(resolvers, unpack, cacheOn, maxSize, now, acts, t)
    ensures var start, ops := P.New(resolvers), t.service.poolOps;
            && P.Runs(start, ops) && P.After(start, ops) == t.service.pool
            && |t.scanner.callbacks| == |t.scanner.captured| == |DownAt(start, ops)|
            && (forall k: nat :: k in DownAt(start, ops) <==> IsDownAt(start, ops, k))
            && (forall i, j :: 0 <= i < j < |DownAt(start, ops)| ==> DownAt(start, ops)[i] < DownAt(start, ops)[j])
    ensures forall i: nat :: i < |t.scanner.callbacks| ==>
              t.scanner.callbacks[i].Pending? || t.scanner.token
              || t.scanner.captured[i] <= t.scanner.callbacks[i].at < t.scanner.tokenScans
  {
    hide F.PoolInv, DownAt, IsDownAt;
    F.InitPoolInv(resolvers, cacheOn, maxSize, now);
    NothingDownYet(resolvers);
    RunKeepsInv(resolvers, unpack, State(F.Init(resolvers, cacheOn, maxSize, now), R.INIT), acts, t);
    HistoryOf(resolvers, t.service);
    DownAtExactly(P.New(resolvers), t.service.poolOps);
    forall i: nat | i < |t.scanner.callbacks|
      ensures t.scanner.callbacks[i].Pending? || t.scanner.token
              || t.scanner.captured[i] <= t.scanner.callbacks[i].at < t.scanner.tokenScans
    {
      assert R.NotLost(t.scanner, i);
    }
  }

  lemma NothingDownYet(resolvers: seq<P.Resolver>)
    ensures P.Runs(P.New(resolvers), []) && DownAt(P.New(resolvers), []) == []
  {}

  /** And such a failure is the tenth since the reset, with no dead probe in between. */
  lemma DownAtTenthFailure(resolvers: seq<P.Resolver>, ops: seq<P.Op>, k: nat)
    requires P.Runs(P.New(resolvers), ops) && IsDownAt(P.New(resolvers), ops, k)
    ensures ops[k].Failure?
    ensures var recent := P.SinceReset(P.History(ops[..k], ops[k].r));
            P.Failures(recent) == 9 && P.Probed(false) !in recent
  {
    hide P.TakesDown, P.SinceReset, P.Failures, P.History;
    var start := P.New(resolvers);
    assert ops[..k] + ops[k..] == ops && ops[k..] == [ops[k]] + ops[k + 1..];
    assert ops == ops[..k] + [ops[k]] + ops[k + 1..];
    P.RunsPrefix(start, ops[..k] + [ops[k]], ops[k + 1..]);
    FailureEnabled(start, ops[..k], ops[k]);
    P.CallbackAtTenthFailure(resolvers, ops[..k], ops[k].r);
  }

  lemma FailureEnabled(start: P.Pool, ops: seq<P.Op>, op: P.Op)
    requires P.Runs(start, ops + [op])
    ensures P.Runs(start, ops) && P.Enabled(P.After(start, ops), op)
  {
    assert (ops + [op])[..|ops|] == ops;
  }
}

/**
 * The rescan channel of autoscan.go and the resolver-down callback of pool.go, as a transition
 * system.
 *
 * MarkFailure captures the callback under the pool's lock and starts it in a goroutine of its
 * own; the callback is a non-blocking send on a channel of capacity one; the scanner's loop
 * consumes tokens, interleaved with its two tickers.
 */
module Rescan {
  /** One captured callback: still to run, or run when `at` scans had been started by tokens. */
  datatype Callback = Pending | Ran(at: nat)

  /** The scanner's goroutine: initial scan, then the select loop. */
  datatype Loop = InitialScan | Selecting | Scanning | Stopped

  /** `tokenScans` counts the scans started by a consumed token; `captured[i]` is its value when
      the i-th callback was captured. */
  datatype State = State(token: bool, loop: Loop, tokenScans: nat, callbacks: seq<Callback>, captured: seq<nat>)

  const INIT := State(false, InitialScan, 0, [], [])

  datatype Action =
    | Down                   // MarkFailure takes a resolver down with a callback set
    | RunCallback(i: nat)
    | InitialScanDone
    | ConsumeToken
    | PeriodicTick
    | MaintenanceTick(thinning: bool)
    | ScanDone
    | StopLoop

  predicate Enabled(s: State, a: Action) {
    match a
    case Down => true
    case RunCallback(i) => i < |s.callbacks| && s.callbacks[i].Pending?
    case InitialScanDone => s.loop == InitialScan
    case ConsumeToken => s.loop == Selecting && s.token
    case PeriodicTick => s.loop == Selecting
    case MaintenanceTick(_) => s.loop == Selecting
    case ScanDone => s.loop == Scanning
    case StopLoop => s.loop == Selecting
  }

  /** TriggerRescan: send if there is room, drop otherwise. */
  function Trigger(s: State): State {
    if s.token then s else s.(token := true)
  }

  function Apply(s: State, a: Action): State
    requires Enabled(s, a)
  {
    match a
    case Down => s.(callbacks := s.callbacks + [Pending], captured := s.captured + [s.tokenScans])
    case RunCallback(i) => Trigger(s).(callbacks := s.callbacks[i := Ran(s.tokenScans)])
    case InitialScanDone => s.(loop := Selecting)
    case ConsumeToken => s.(token := false, loop := Scanning, tokenScans := s.tokenScans + 1)
    case PeriodicTick => s.(loop := Scanning)
    case MaintenanceTick(thinning) => if thinning then Trigger(s) else s
    case ScanDone => s.(loop := Selecting)
    case StopLoop => s.(loop := Stopped)
  }

  ghost predicate Run(s: State, acts: seq<Action>, t: State)
    decreases |acts|
  {
    if acts == [] then t == s else Enabled(s, acts[0]) && Run(Apply(s, acts[0]), acts[1..], t)
  }

  /** What the loop does at each event: a token or the periodic tick starts a scan, a thinning pool
      leaves a token, and the end of a scan takes it back to waiting. */
  lemma LoopReacts(s: State, a: Action)
    requires Enabled(s, a) && !a.Down? && !a.RunCallback?
    ensures var t := Apply(s, a);
            && t.callbacks == s.callbacks && t.captured == s.captured
            && (t.loop == Scanning && s.loop != Scanning <==> a.ConsumeToken? || a.PeriodicTick?)
            && (a.MaintenanceTick? ==> t.loop == s.loop && (t.token <==> s.token || a.thinning))
            && (a.ScanDone? || a.InitialScanDone? ==> t.loop == Selecting) && (a.StopLoop? ==> t.loop == Stopped)
            && (!a.ConsumeToken? && !a.MaintenanceTick? ==> t.token == s.token) && (a.ConsumeToken? ==> !t.token)
  {}

  /** What became of the i-th captured callback. */
  ghost predicate NotLost(s: State, i: nat)
    requires i < |s.callbacks| == |s.captured|
  {
    match s.callbacks[i]
    case Pending => s.captured[i] <= s.tokenScans
    case Ran(at) => s.captured[i] <= at && at <= s.tokenScans && (s.token || at < s.tokenScans)
  }

  ghost predicate Inv(s: State) {
    |s.callbacks| == |s.captured| && forall i: nat :: i < |s.callbacks| ==> NotLost(s, i)
  }

  lemma StepKeepsInv(s: State, a: Action)
    requires Inv(s) && Enabled(s, a)
    ensures Inv(Apply(s, a))
  {
    var u := Apply(s, a);
    forall i: nat | i < |u.callbacks| ensures NotLost(u, i) {
      if i < |s.callbacks| { assert NotLost(s, i); }
    }
  }

  lemma {:induction false} RunKeepsInv(s: State, acts: seq<Action>, t: State)
    requires Inv(s) && Run(s, acts, t)
    ensures Inv(t)
    decreases |acts|
  {
    if acts != [] {
      StepKeepsInv(s, acts[0]);
      RunKeepsInv(Apply(s, acts[0]), acts[1..], t);
    }
  }

  /** No lost rescan: in every interleaving a callback captured by a down event is still pending,
      or there is a token in the channel, or a token consumed after the callback ran, hence after
      the down event, started a scan.  A dropped send loses nothing: its token was there. */
  lemma NoRescanIsLost(acts: seq<Action>, t: State, i: nat)
    requires Run(INIT, acts, t) && i < |t.callbacks|
    ensures |t.captured| == |t.callbacks|
    ensures t.callbacks[i].Pending? || t.token || t.captured[i] <= t.callbacks[i].at < t.tokenScans
  {
    RunKeepsInv(INIT, acts, t);
    assert NotLost(t, i);
  }

  /** A waiting token is consumed by the loop unless it stops: from any state in which the loop
      selects with a token there, the next consumption starts a scan for every callback run. */
  lemma TokenServesAllCallbacks(acts: seq<Action>, t: State)
    requires Run(INIT, acts, t) && Enabled(t, ConsumeToken)
    ensures var u := Apply(t, ConsumeToken);
            && u.loop == Scanning
            && |u.captured| == |u.callbacks|
            && forall i: nat :: i < |u.callbacks| ==>
                 u.callbacks[i].Pending? || u.captured[i] <= u.callbacks[i].at < u.tokenScans
  {
    RunKeepsInv(INIT, acts, t);
    var u := Apply(t, ConsumeToken);
    forall i: nat | i < |u.callbacks|
      ensures u.callbacks[i].Pending? || u.captured[i] <= u.callbacks[i].at < u.tokenScans
    {
      assert NotLost(t, i);
    }
  }
}

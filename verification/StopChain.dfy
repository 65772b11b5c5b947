/**
 * Stop of tunnel.go: what it captures, and exactly when it is final.  Start does not look at
 * `stopped`, so a Start after Stop can launch again; nothing else can.
 */
module StopChain {
  import opened Options
  import opened Supervisor
  import opened SshChain

  /** No Start of the run launches slipnet. */
  predicate NoStartLaunches(s: State, acts: seq<Action>)
    decreases |acts|
  {
    acts == [] || (!StartLaunches(s, acts[0]) && Enabled(s, acts[0])
                   && NoStartLaunches(Apply(s, acts[0]), acts[1..]))
  }

  lemma StoppedStep(s: State, a: Action)
    requires s.f.stopped && !s.locked && Enabled(s, a)
    ensures Apply(s, a).f.stopped && |Apply(s, a).procs| == |s.procs| + (if StartLaunches(s, a) then 1 else 0)
    ensures !StartLaunches(s, a) ==>
              !Apply(s, a).locked && forall p: Pid :: p < |s.procs| && Apply(s, a).procs[p].alive ==> s.procs[p].alive
  {}

  lemma {:induction false} ProcessesStay(s: State, acts: seq<Action>, t: State)
    requires Run(s, acts, t)
    ensures |s.procs| <= |t.procs|
    decreases |acts|
  {
    if acts != [] { ProcessesStay(Apply(s, acts[0]), acts[1..], t); }
  }

  /** With the manager stopped, something is launched if and only if a Start launches it: no
      monitor does. */
  lemma {:induction false} StoppedLaunchesExactlyByStart(s: State, acts: seq<Action>, t: State)
    requires s.f.stopped && !s.locked && Run(s, acts, t)
    ensures |t.procs| == |s.procs| <==> NoStartLaunches(s, acts)
    ensures NoStartLaunches(s, acts) ==> forall p: Pid :: p < |t.procs| && t.procs[p].alive ==> s.procs[p].alive
    decreases |acts|
  {
    hide Apply;
    if acts != [] {
      var u := Apply(s, acts[0]);
      StoppedStep(s, acts[0]);
      if StartLaunches(s, acts[0]) {
        ProcessesStay(u, acts[1..], t);
      } else {
        StoppedLaunchesExactlyByStart(u, acts[1..], t);
      }
    }
  }

  /** What is alive is what Stop has captured and not yet seen to exit. */
  ghost predicate StopInv(s: State) {
    s.f.stopped && !s.locked && forall p: Pid :: p < |s.procs| && s.procs[p].alive ==>
      match s.stopper
      case NotCalled => false
      case EndingSsh(tunnel, ssh) => Some(p) == if s.procs[p].kind == Slipnet then tunnel else ssh
      case EndingTunnel(tunnel) => tunnel == Some(p) && s.procs[p].kind == Slipnet
      case StopReturned => false
  }

  lemma {:induction false} RunKeepsStopInv(s: State, acts: seq<Action>, t: State)
    requires StopInv(s) && Run(s, acts, t) && NoStartLaunches(s, acts)
    ensures StopInv(t)
    decreases |acts|
  {
    if acts != [] {
      StepKeepsStopInv(s, acts[0]);
      RunKeepsStopInv(Apply(s, acts[0]), acts[1..], t);
    }
  }

  lemma StepKeepsStopInv(s: State, a: Action)
    requires StopInv(s) && Enabled(s, a) && !StartLaunches(s, a)
    ensures StopInv(Apply(s, a))
  {}

  lemma SectionCaptures(s: State)
    requires SshInv(s) && Enabled(s, StopSection)
    ensures forall p: Pid :: p < |s.procs| && s.procs[p].alive ==>
              Some(p) == if s.procs[p].kind == Slipnet then s.f.tunnelCmd else s.f.sshCmd
    ensures StopInv(Apply(s, StopSection))
  {
    forall p: Pid | p < |s.procs| && s.procs[p].alive
      ensures Some(p) == if s.procs[p].kind == Slipnet then s.f.tunnelCmd else s.f.sshCmd
    {
      assert ProcessOk(s, p) && ProcessInv(s, p);
    }
  }

  /** After Stop, too, an ssh beside a pending restart is still to be ended by that monitor. */
  ghost predicate WindingDown(s: State) {
    && SshInv(s) && s.f.stopped && !s.locked
    && forall p: Pid, q: Pid :: Pending(s, p) && Alive(s, Ssh, q) ==>
         s.monitors[p].Reaped? || s.monitors[p] == Terminating(Some(q))
  }

  lemma {:induction false} RunKeepsWindingDown(s: State, acts: seq<Action>, t: State)
    requires WindingDown(s) && Run(s, acts, t) && NoStartLaunches(s, acts)
    ensures WindingDown(t)
    decreases |acts|
  {
    hide WindingDown;
    if acts != [] {
      StepKeepsWindingDown(s, acts[0]);
      RunKeepsWindingDown(Apply(s, acts[0]), acts[1..], t);
    }
  }

  lemma StepKeepsWindingDown(s: State, a: Action)
    requires WindingDown(s) && Enabled(s, a) && !StartLaunches(s, a)
    ensures WindingDown(Apply(s, a))
  {
    hide SshInv;
    StepKeepsSshInv(s, a);
    StoppedStep(s, a);
    InvBoundsSsh(s);
    SshInvFacts(s, a);
    TunnelInvFacts(s, a);
    var t := Apply(s, a);
    forall p: Pid, q: Pid | Pending(t, p) && Alive(t, Ssh, q)
      ensures t.monitors[p].Reaped? || t.monitors[p] == Terminating(Some(q))
    {
      assert Alive(s, Ssh, q) && Pending(s, p);
    }
  }

  lemma SectionWindsDown(s: State)
    requires SshInv(s) && Enabled(s, StopSection)
    ensures WindingDown(Apply(s, StopSection)) || s.f.stopped
  {
    var t := Apply(s, StopSection);
    StepKeepsSshInv(s, StopSection);
    forall p: Pid, q: Pid | !s.f.stopped && Pending(t, p) && Alive(t, Ssh, q)
      ensures t.monitors[p].Reaped? || t.monitors[p] == Terminating(Some(q))
    {
      assert Pending(s, p) && Alive(s, Ssh, q);
      assert ProcessOk(s, p) && ProcessOk(s, q) && ProcessInv(s, q);
    }
  }

  /** Stop is final: every process alive when Stop's section sets `stopped` is one of the two
      handles it captured; from then on something is launched if and only if a Start finds the
      binary and no tunnel handle and launches; without such a Start, nothing comes alive, and
      nothing is alive when Stop has returned, then or later. */
  lemma StopIsFinal(sshMode: bool, before: seq<Action>, s: State, later: seq<Action>, t: State)
    requires Run(Init(sshMode), before, s) && Disciplined(Init(sshMode), before) && Enabled(s, StopSection)
    requires Run(Apply(s, StopSection), later, t)
    ensures forall p: Pid :: p < |s.procs| && s.procs[p].alive ==> Some(p) == s.f.tunnelCmd || Some(p) == s.f.sshCmd
    ensures |t.procs| == |s.procs| <==> NoStartLaunches(Apply(s, StopSection), later)
    ensures NoStartLaunches(Apply(s, StopSection), later) ==>
              && (forall p: Pid :: p < |t.procs| && t.procs[p].alive ==> s.procs[p].alive)
              && (t.stopper.StopReturned? ==> forall p: Pid :: p < |t.procs| ==> !t.procs[p].alive)
              && ((exists p: Pid :: MonitorAt(t, p, Slipnet, Sleeping)) ==> NoSshAlive(t))
  {
    hide SshInv;
    InitSshInv(sshMode);
    RunKeepsSshInv(Init(sshMode), before, s);
    SectionCaptures(s);
    var u := Apply(s, StopSection);
    StoppedLaunchesExactlyByStart(u, later, t);
    if NoStartLaunches(u, later) {
      RunKeepsStopInv(u, later, t);
      NotYetStopped(sshMode, before, s);
      SectionWindsDown(s);
      RunKeepsWindingDown(u, later, t);
      if p: Pid :| MonitorAt(t, p, Slipnet, Sleeping) { assert Pending(t, p); }
    }
  }

  /** Only Stop sets `stopped`, and it runs once. */
  lemma {:induction false} NotYetStopped(sshMode: bool, acts: seq<Action>, s: State)
    requires Run(Init(sshMode), acts, s) && s.stopper.NotCalled?
    ensures !s.f.stopped
  {
    RunKeepsStopFlag(Init(sshMode), acts, s);
  }

  lemma {:induction false} RunKeepsStopFlag(s: State, acts: seq<Action>, t: State)
    requires Run(s, acts, t) && (s.f.stopped <==> !s.stopper.NotCalled?)
    ensures t.f.stopped <==> !t.stopper.NotCalled?
    decreases |acts|
  {
    if acts != [] { RunKeepsStopFlag(Apply(s, acts[0]), acts[1..], t); }
  }

  /** In particular a run without a Start after Stop launches nothing, as in main.go. */
  lemma {:induction false} NoStartNoLaunch(s: State, acts: seq<Action>, t: State)
    requires Run(s, acts, t) && forall i :: 0 <= i < |acts| ==> !acts[i].Start?
    ensures NoStartLaunches(s, acts)
    decreases |acts|
  {
    if acts != [] { NoStartNoLaunch(Apply(s, acts[0]), acts[1..], t); }
  }

  // --- runs that fail

  /** A Start after Stop does launch: Stop has returned and a slipnet is alive. */
  lemma StartAfterStopLaunches() returns (acts: seq<Action>, t: State)
    ensures Run(Init(false), acts, t) && t.stopper.StopReturned? && Alive(t, Slipnet, 1)
  {
    hide Run;
    var s0 := Init(false);
    var go := Start(true, Launched(0));
    RunOne(s0, go);
    var s1 := Apply(s0, go);
    RunThen(s0, [go], s1, StopSection);
    var s2 := Apply(s1, StopSection);
    RunThen(s0, [go] + [StopSection], s2, StopSshEnded);
    var s3 := Apply(s2, StopSshEnded);
    acts := [go] + [StopSection] + [StopSshEnded];
    RunThen(s0, acts, s3, Exit(0));
    var s4 := Apply(s3, Exit(0));
    RunThen(s0, acts + [Exit(0)], s4, StopTunnelEnded);
    var s5 := Apply(s4, StopTunnelEnded);
    acts := acts + [Exit(0)] + [StopTunnelEnded];
    RunThen(s0, acts, s5, ReapTunnel(0));
    var s6 := Apply(s5, ReapTunnel(0));
    RunThen(s0, acts + [ReapTunnel(0)], s6, go);
    acts, t := acts + [ReapTunnel(0)] + [go], Apply(s6, go);
  }

  /** A disciplined run that leaves a restart pending and no tunnel handle: the state in which a
      Start is not safe is reached with a single Start before it. */
  lemma PendingIsReached() returns (acts: seq<Action>, s: State)
    ensures Run(Init(true), acts, s) && Disciplined(Init(true), acts)
    ensures s.sshMode && !s.locked && s.f.tunnelCmd == None && !s.f.stopped && s.stopper.NotCalled?
    ensures Pending(s, 0) && Alive(s, Ssh, 1) && !SafeToStart(s)
  {
    hide Run;
    var s0 := Init(true);
    var go := Start(true, Launched(5));
    RunOne(s0, go);
    var s1 := Apply(s0, go);
    RunThen(s0, [go], s1, FinishStart(SshLaunched));
    var s2 := Apply(s1, FinishStart(SshLaunched));
    RunThen(s0, [go] + [FinishStart(SshLaunched)], s2, Exit(0));
    var s3 := Apply(s2, Exit(0));
    RunThen(s0, [go] + [FinishStart(SshLaunched)] + [Exit(0)], s3, ReapTunnel(0));
    s := Apply(s3, ReapTunnel(0));
    var later := [FinishStart(SshLaunched), Exit(0), ReapTunnel(0)];
    acts := [go] + [FinishStart(SshLaunched)] + [Exit(0)] + [ReapTunnel(0)];
    assert acts == [go] + later;
    StartOnceIsDisciplined(true, go, later, s);
  }

  /** So both failures are real: a run with a second Start ends with two ssh processes alive,
      one of which Stop would not capture. */
  lemma SecondStartDoublesSsh() returns (acts: seq<Action>, t: State)
    ensures Run(Init(true), acts, t) && !AtMostOneSsh(t)
    ensures Enabled(t, StopSection) && Alive(t, Ssh, 1) && t.f.tunnelCmd != Some(1) && t.f.sshCmd != Some(1)
  {
    hide Run;
    var before, s := PendingIsReached();
    SecondStart(s);
    var more := [Start(true, Launched(0)), FinishStart(SshLaunched)];
    RunConcat(Init(true), before, s, more, Started(s));
    acts, t := before + more, Started(s);
  }

  lemma SecondStart(s: State)
    requires s.sshMode && !s.locked && s.f.tunnelCmd == None && !s.f.stopped && s.stopper.NotCalled? && Alive(s, Ssh, 1)
    ensures Run(s, [Start(true, Launched(0)), FinishStart(SshLaunched)], Started(s))
    ensures var t := Started(s);
            && !AtMostOneSsh(t) && Enabled(t, StopSection)
            && Alive(t, Ssh, 1) && t.f.tunnelCmd != Some(1) && t.f.sshCmd != Some(1)
  {
    hide Run;
    var go, s1 := Start(true, Launched(0)), Apply(s, Start(true, Launched(0)));
    RunOne(s, go);
    RunThen(s, [go], s1, FinishStart(SshLaunched));
    assert [go] + [FinishStart(SshLaunched)] == [go, FinishStart(SshLaunched)];
    assert Alive(Started(s), Ssh, 1) && Alive(Started(s), Ssh, |s.procs| + 1);
  }

  /** Once stopped, a pending restart no longer matters: here a Start is safe beside one. */
  lemma StoppedPendingIsSafe() returns (acts: seq<Action>, s: State)
    ensures Run(Init(true), acts, s) && s.f.stopped && !s.locked && s.f.tunnelCmd == None
    ensures Pending(s, 0) && SafeToStart(s)
  {
    hide Run;
    var s0, go := Init(true), Start(true, Launched(5));
    RunOne(s0, go);
    var s1 := Apply(s0, go);
    RunThen(s0, [go], s1, FinishStart(SshFails));
    var s2 := Apply(s1, FinishStart(SshFails));
    RunThen(s0, [go] + [FinishStart(SshFails)], s2, Exit(0));
    var s3 := Apply(s2, Exit(0));
    acts := [go] + [FinishStart(SshFails)] + [Exit(0)];
    RunThen(s0, acts, s3, ReapTunnel(0));
    var s4 := Apply(s3, ReapTunnel(0));
    RunThen(s0, acts + [ReapTunnel(0)], s4, StopSection);
    acts, s := acts + [ReapTunnel(0)] + [StopSection], Apply(s4, StopSection);
  }

  /** But an ssh that Stop has not ended yet does: a Start then doubles it. */
  lemma StartWhileStoppingDoublesSsh() returns (acts: seq<Action>, t: State)
    ensures Run(Init(true), acts, t) && t.f.stopped && !AtMostOneSsh(t)
  {
    hide Run;
    var before, s := OneSshReached();
    RunThen(Init(true), before, s, StopSection);
    var s1 := Apply(s, StopSection);
    RunThen(Init(true), before + [StopSection], s1, Exit(0));
    var s2 := Apply(s1, Exit(0));
    RunThen(Init(true), before + [StopSection] + [Exit(0)], s2, ReapTunnel(0));
    var s3 := Apply(s2, ReapTunnel(0));
    before := before + [StopSection] + [Exit(0)] + [ReapTunnel(0)];
    StartedRun(s3);
    var more := [Start(true, Launched(0)), FinishStart(SshLaunched)];
    RunConcat(Init(true), before, s3, more, Started(s3));
    acts, t := before + more, Started(s3);
    assert Alive(t, Ssh, 1) && Alive(t, Ssh, 3);
  }

  lemma OneSshReached() returns (acts: seq<Action>, s: State)
    ensures Run(Init(true), acts, s)
    ensures s == State(true, Fields(Some(0), Some(1), false, 5), [Process(Slipnet, 5, true), Process(Ssh, 5, true)],
                       [Waiting, Waiting], false, NotCalled)
  {
    hide Run;
    var go := Start(true, Launched(5));
    RunOne(Init(true), go);
    RunThen(Init(true), [go], Apply(Init(true), go), FinishStart(SshLaunched));
    acts, s := [go] + [FinishStart(SshLaunched)], Apply(Apply(Init(true), go), FinishStart(SshLaunched));
  }
}

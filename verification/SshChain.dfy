/**
 * SSH mode of the supervisor: ssh follows the tunnel.
 *
 * This needs one thing of the callers that the code itself does not check: Start must not launch
 * a tunnel while an older one is still being wound down.  main.go calls Start once, before
 * anything runs.
 */
module SshChain {
  import opened Options
  import opened Supervisor

  /** monitorTunnel has given up the handle and is on its way to the restart. */
  ghost predicate Pending(s: State, p: Pid) {
    p < |s.procs| && p < |s.monitors| && s.procs[p].kind == Slipnet
    && (s.monitors[p].Reaped? || s.monitors[p].Terminating? || s.monitors[p].Sleeping?)
  }

  /** The process behind the current ssh handle is alive. */
  predicate SshLive(s: State) {
    s.f.sshCmd.Some? && s.f.sshCmd.value < |s.procs| && s.procs[s.f.sshCmd.value].alive
  }

  ghost predicate NoSshAlive(s: State) {
    forall p: Pid :: p < |s.procs| && s.procs[p].alive ==> s.procs[p].kind != Ssh
  }

  /** A call of Start that gets past its two checks and launches slipnet. */
  predicate StartLaunches(s: State, a: Action) {
    a.Start? && a.binaryFound && s.f.tunnelCmd == None && a.launch.Launched?
  }

  /** Start may launch here: in direct mode always; in ssh mode if no ssh is alive and, unless the
      manager is stopped, no restart is pending.  With a tunnel handle set it is refused. */
  ghost predicate SafeToStart(s: State) {
    s.sshMode && s.f.tunnelCmd == None ==>
      NoSshAlive(s) && (s.f.stopped || forall p: Pid :: p < |s.procs| ==> !Pending(s, p))
  }

  /** Every Start that launches does so where it may. */
  ghost predicate Disciplined(s: State, acts: seq<Action>)
    decreases |acts|
  {
    acts == [] || (Enabled(s, acts[0])
      && (StartLaunches(s, acts[0]) ==> SafeToStart(s))
      && Disciplined(Apply(s, acts[0]), acts[1..]))
  }

  /** Monitors restart what they find dead. */
  predicate Watched(s: State) {
    s.sshMode && !s.f.stopped
  }

  ghost predicate ProcessOk(s: State, p: Pid)
    requires p < |s.procs| == |s.monitors|
  {
    && (s.procs[p].kind == Ssh && s.procs[p].alive ==> s.f.sshCmd == Some(p))
    && (Watched(s) && Pending(s, p) ==> s.f.tunnelCmd == None)
    && (Watched(s) && Pending(s, p) && SshLive(s) ==>
          s.monitors[p].Reaped? || (s.monitors[p].Terminating? && s.monitors[p].cmd == s.f.sshCmd))
  }

  ghost predicate SomePending(s: State) {
    exists p: Pid :: Pending(s, p)
  }

  ghost predicate SshInv(s: State) {
    && TunnelInv(s)
    && (forall p: Pid :: p < |s.procs| ==> ProcessOk(s, p))
    && (Watched(s) ==> forall p: Pid, q: Pid :: Pending(s, p) && Pending(s, q) ==> p == q)
    && (Watched(s) && SshLive(s) && s.f.tunnelCmd == None ==> SomePending(s))
    && (s.locked ==> !SshLive(s))
  }

  // --- preservation, one kind of change at a time

  lemma LaunchTunnelKeeps(s: State, launch: Launch)
    requires SshInv(s) && s.f.tunnelCmd == None && !SshLive(s)
    requires Watched(s) ==> forall p: Pid :: p < |s.procs| ==> !Pending(s, p)
    ensures SshInv(LaunchTunnel(s, launch))
  {
    LaunchTunnelKeepsTunnelInv(s, launch);
    var t := LaunchTunnel(s, launch);
    assert !SshLive(t);
    forall p: Pid | p < |t.procs| ensures ProcessOk(t, p) && (Watched(t) ==> !Pending(t, p)) {
      if p < |s.procs| {
        assert ProcessOk(s, p) && ProcessInv(s, p);
        assert Watched(s) ==> !Pending(s, p);
      }
    }
  }

  /** A launch that fails changes at most the recorded port. */
  lemma FailedLaunchKeeps(s: State, launch: Launch)
    requires SshInv(s) && s.f.tunnelCmd == None && !launch.Launched?
    ensures SshInv(LaunchTunnel(s, launch))
  {
    LaunchTunnelKeepsTunnelInv(s, launch);
    var t := LaunchTunnel(s, launch);
    assert SshLive(t) == SshLive(s) && t.procs == s.procs && t.monitors == s.monitors;
    SamePending(s, t);
    forall p: Pid | p < |t.procs| ensures ProcessOk(t, p) { assert ProcessOk(s, p); }
  }

  /** The same monitors and processes, the same restarts pending. */
  lemma SamePending(s: State, t: State)
    requires |s.monitors| == |t.monitors| == |s.procs| == |t.procs|
    requires forall p: Pid :: p < |s.procs| ==> s.procs[p].kind == t.procs[p].kind
    requires forall p: Pid :: p < |s.procs| && s.procs[p].kind == Slipnet ==>
               (s.monitors[p].Reaped? || s.monitors[p].Terminating? || s.monitors[p].Sleeping? <==>
                t.monitors[p].Reaped? || t.monitors[p].Terminating? || t.monitors[p].Sleeping?)
    ensures forall p: Pid :: Pending(s, p) <==> Pending(t, p)
    ensures SomePending(s) <==> SomePending(t)
  {
    forall p: Pid ensures Pending(s, p) <==> Pending(t, p) {}
  }

  lemma LaunchSshKeeps(s: State)
    requires SshInv(s) && s.sshMode && !s.locked && !SshLive(s) && s.f.tunnelCmd.Some?
    ensures SshInv(LaunchSsh(s))
  {
    LaunchSshKeepsTunnelInv(s);
    var t := LaunchSsh(s);
    forall p: Pid | p < |t.procs| ensures ProcessOk(t, p) && (Watched(t) ==> !Pending(t, p)) {
      if p < |s.procs| { assert ProcessOk(s, p) && ProcessInv(s, p); }
    }
  }

  lemma MoveKeeps(s: State, p: Pid, m: Monitor)
    requires SshInv(s) && p < |s.procs| && TunnelInv(Move(s, p, m))
    requires s.procs[p].kind == Slipnet ==>
               Pending(s, p) && ((m.Terminating? && m.cmd == s.f.sshCmd)
                                 || ((m.Sleeping? || m.Finished?) && (Watched(s) ==> !SshLive(s))))
    ensures SshInv(Move(s, p, m))
  {
    var t := Move(s, p, m);
    assert SshLive(t) == SshLive(s);
    forall q: Pid | q < |t.procs| ensures ProcessOk(t, q) {
      assert ProcessOk(s, q);
      assert Pending(t, q) ==> Pending(s, q);
    }
    forall q: Pid, r: Pid | Watched(t) && Pending(t, q) && Pending(t, r) ensures q == r {
      assert Pending(s, q) && Pending(s, r);
    }
    if s.procs[p].kind == Ssh || m.Terminating? { SamePending(s, t); }
  }

  lemma ExitKeeps(s: State, p: Pid)
    requires SshInv(s) && Enabled(s, Exit(p))
    ensures SshInv(Apply(s, Exit(p)))
  {
    ExitKeepsTunnelInv(s, p);
    var t := Apply(s, Exit(p));
    SamePending(s, t);
    forall q: Pid | q < |t.procs| ensures ProcessOk(t, q) { assert ProcessOk(s, q); }
  }

  lemma ReapTunnelKeeps(s: State, p: Pid)
    requires SshInv(s) && Enabled(s, ReapTunnel(p))
    ensures SshInv(Apply(s, ReapTunnel(p)))
  {
    StepKeepsTunnelInv(s, ReapTunnel(p));
    var t := Apply(s, ReapTunnel(p));
    assert ProcessInv(s, p);
    forall q: Pid | q < |t.procs| ensures ProcessOk(t, q) && (Watched(t) && Pending(t, q) ==> q == p) {
      assert ProcessOk(s, q) && ProcessInv(s, q);
      assert q != p && Pending(t, q) ==> Pending(s, q);
    }
    assert Watched(t) ==> Pending(t, p);
  }

  lemma ReapSshKeeps(s: State, p: Pid)
    requires SshInv(s) && Enabled(s, ReapSsh(p))
    ensures SshInv(Apply(s, ReapSsh(p)))
  {
    StepKeepsTunnelInv(s, ReapSsh(p));
    var t := Apply(s, ReapSsh(p));
    assert SshLive(t) == SshLive(s);
    SamePending(s, t);
    forall q: Pid | q < |t.procs| ensures ProcessOk(t, q) { assert ProcessOk(s, q); }
  }

  lemma StopKeeps(s: State, a: Action)
    requires SshInv(s) && Enabled(s, a) && (a.StopSection? || a.StopSshEnded? || a.StopTunnelEnded?)
    ensures SshInv(Apply(s, a))
  {
    StepKeepsTunnelInv(s, a);
    var t := Apply(s, a);
    assert SshLive(t) == SshLive(s);
    SamePending(s, t);
    forall q: Pid | q < |t.procs| ensures ProcessOk(t, q) { assert ProcessOk(s, q); }
  }

  lemma UnlockKeeps(s: State)
    requires SshInv(s) && s.locked
    ensures SshInv(s.(locked := false))
  {
    FlagsKeepTunnelInv(s, s.f.stopped, s.stopper, false);
    var t := s.(locked := false);
    SamePending(s, t);
    forall q: Pid | q < |t.procs| ensures ProcessOk(t, q) { assert ProcessOk(s, q); }
  }

  lemma RestartTunnelKeeps(s: State, p: Pid, launch: Launch)
    requires SshInv(s) && Enabled(s, RestartTunnel(p, launch))
    ensures SshInv(Apply(s, RestartTunnel(p, launch)))
  {
    StepKeepsTunnelInv(s, RestartTunnel(p, launch));
    TunnelInvFacts(s, RestartTunnel(p, launch));
    MoveKeepsTunnelInv(s, p, Finished);
    assert Pending(s, p) && ProcessOk(s, p);
    MoveKeeps(s, p, Finished);
    var s1 := Move(s, p, Finished);
    if MayRestartTunnel(s.f) {
      if !s.sshMode { DirectHasNoSsh(s); }
      assert SshLive(s1) == SshLive(s);
      forall q: Pid | q < |s1.procs| && Watched(s1) ensures !Pending(s1, q) {
        assert Pending(s1, q) ==> Pending(s, q);
      }
      LaunchTunnelKeeps(s1, launch);
    }
  }

  lemma DirectHasNoSsh(s: State)
    requires TunnelInv(s) && !s.sshMode
    ensures !SshLive(s) && NoSshAlive(s)
  {
    forall p: Pid | p < |s.procs| ensures s.procs[p].kind != Ssh { assert ProcessInv(s, p); }
  }

  lemma StepKeepsSshInv(s: State, a: Action)
    requires SshInv(s) && Enabled(s, a)
    requires StartLaunches(s, a) ==> SafeToStart(s)
    ensures SshInv(Apply(s, a))
  {
    hide SshInv, TunnelInv, SafeToStart;
    SshInvFacts(s, a);
    TunnelInvFacts(s, a);
    match a
    case Start(found, launch) =>
      if s.f.tunnelCmd == None && found {
        if launch.Launched? { LaunchTunnelKeeps(s, launch); } else { FailedLaunchKeeps(s, launch); }
      }
    case FinishStart(chain) =>
      UnlockKeeps(s);
      if chain.SshLaunched? { LaunchSshKeeps(s.(locked := false)); }
    case Exit(p) => ExitKeeps(s, p);
    case ReapTunnel(p) => ReapTunnelKeeps(s, p);
    case ReadSshHandle(p) => StepKeepsTunnelInv(s, a); MoveKeeps(s, p, Terminating(s.f.sshCmd));
    case SshEnded(p) => StepKeepsTunnelInv(s, a); MoveKeeps(s, p, Sleeping);
    case RestartTunnel(p, launch) => RestartTunnelKeeps(s, p, launch);
    case ReapSsh(p) => ReapSshKeeps(s, p);
    case RestartSsh(p, launched) =>
      MoveKeepsTunnelInv(s, p, Finished);
      MoveKeeps(s, p, Finished);
      if MayRestartSsh(s.f) && launched { LaunchSshKeeps(Move(s, p, Finished)); }
    case StopSection => StopKeeps(s, a);
    case StopSshEnded => StopKeeps(s, a);
    case StopTunnelEnded => StopKeeps(s, a);
  }

  lemma SshInvFacts(s: State, a: Action)
    requires SshInv(s) && Enabled(s, a)
    requires StartLaunches(s, a) ==> SafeToStart(s)
    ensures TunnelInv(s)
    ensures StartLaunches(s, a) ==>
              !SshLive(s) && (Watched(s) ==> forall p: Pid :: p < |s.procs| ==> !Pending(s, p))
    ensures a.FinishStart? ==> s.locked && !SshLive(s) && s.f.tunnelCmd.Some?
    ensures a.SshEnded? ==> Pending(s, a.p) && (Watched(s) ==> !SshLive(s))
    ensures a.ReadSshHandle? ==> Pending(s, a.p)
  {
    if a.SshEnded? { assert ProcessOk(s, a.p); }
    if !s.sshMode { DirectHasNoSsh(s); }
  }

  lemma {:induction false} RunKeepsSshInv(s: State, acts: seq<Action>, t: State)
    requires SshInv(s) && Run(s, acts, t) && Disciplined(s, acts)
    ensures SshInv(t)
    decreases |acts|
  {
    if acts != [] {
      StepKeepsSshInv(s, acts[0]);
      RunKeepsSshInv(Apply(s, acts[0]), acts[1..], t);
    }
  }

  // --- the guarantees

  ghost predicate AtMostOneSsh(s: State) {
    forall p: Pid, q: Pid :: Alive(s, Ssh, p) && Alive(s, Ssh, q) ==> p == q
  }

  /** Some monitor is about to end the ssh `p`: it has given up its tunnel and not got past
      stopSSH. */
  ghost predicate BeingEnded(s: State, p: Pid) {
    exists q: Pid :: MonitorAt(s, q, Slipnet, Reaped) || MonitorAt(s, q, Slipnet, Terminating(Some(p)))
  }

  /** SSH follows the tunnel: at most one ssh is alive and it is sshCmd; none is alive while
      startWithSSH waits for the port of the new tunnel; and from the moment the tunnel's handle
      is given up until the tunnel runs again, however long that takes and even if the restart
      fails, an ssh is alive only as long as stopSSH is not done with it. */
  lemma SshFollowsTunnel(sshMode: bool, acts: seq<Action>, t: State)
    requires Run(Init(sshMode), acts, t) && Disciplined(Init(sshMode), acts)
    ensures AtMostOneSsh(t) && forall p: Pid :: Alive(t, Ssh, p) ==> t.f.sshCmd == Some(p)
    ensures t.locked ==> NoSshAlive(t)
    ensures !t.f.stopped && t.f.tunnelCmd == None ==> forall p: Pid :: Alive(t, Ssh, p) ==> BeingEnded(t, p)
    ensures !t.f.stopped && (exists p: Pid :: MonitorAt(t, p, Slipnet, Sleeping)) ==> NoSshAlive(t)
  {
    InitSshInv(sshMode);
    RunKeepsSshInv(Init(sshMode), acts, t);
    InvBoundsSsh(t);
    if !t.f.stopped { InvEndsSsh(t); }
  }

  lemma InvBoundsSsh(t: State)
    requires SshInv(t)
    ensures AtMostOneSsh(t) && forall p: Pid :: Alive(t, Ssh, p) ==> t.f.sshCmd == Some(p)
    ensures !SshLive(t) ==> NoSshAlive(t)
    ensures t.locked ==> NoSshAlive(t)
  {
    forall p: Pid | Alive(t, Ssh, p) ensures t.f.sshCmd == Some(p) { assert ProcessOk(t, p); }
    if !SshLive(t) {
      forall p: Pid | p < |t.procs| && t.procs[p].alive ensures t.procs[p].kind != Ssh { assert ProcessOk(t, p); }
    }
  }

  lemma InvEndsSsh(t: State)
    requires SshInv(t) && !t.f.stopped
    ensures t.f.tunnelCmd == None ==> forall p: Pid :: Alive(t, Ssh, p) ==> BeingEnded(t, p)
    ensures (exists p: Pid :: MonitorAt(t, p, Slipnet, Sleeping)) ==> NoSshAlive(t)
  {
    forall p: Pid | Alive(t, Ssh, p) && t.f.tunnelCmd == None ensures BeingEnded(t, p) {
      assert ProcessOk(t, p) && ProcessInv(t, p);
      var q: Pid :| Pending(t, q);
      assert ProcessOk(t, q);
      assert MonitorAt(t, q, Slipnet, Reaped) || MonitorAt(t, q, Slipnet, Terminating(Some(p)));
    }
    if p: Pid :| MonitorAt(t, p, Slipnet, Sleeping) {
      assert ProcessOk(t, p) && Pending(t, p);
      if t.sshMode { InvBoundsSsh(t); } else { DirectHasNoSsh(t); }
    }
  }

  /** Every ssh ever launched dials the port given to the slipnet in tunnelCmd at that moment;
      this needs no discipline of the callers. */
  lemma EverySshDialsTheTunnel(sshMode: bool, acts: seq<Action>, s: State, a: Action, q: Pid)
    requires Run(Init(sshMode), acts, s) && Enabled(s, a)
    requires |s.procs| <= q < |Apply(s, a).procs| && Apply(s, a).procs[q].kind == Ssh
    ensures s.f.tunnelCmd.Some? && s.f.tunnelCmd.value < |s.procs|
    ensures s.procs[s.f.tunnelCmd.value].kind == Slipnet
    ensures Apply(s, a).procs[q].port == s.procs[s.f.tunnelCmd.value].port
    ensures Apply(s, a).f.tunnelCmd == s.f.tunnelCmd && Apply(s, a).f.sshCmd == Some(q)
  {
    RunKeepsTunnelInv(Init(sshMode), acts, s);
    TunnelInvFacts(s, a);
  }

  lemma {:induction false} RunsWithoutStartAreDisciplined(s: State, acts: seq<Action>, t: State)
    requires Run(s, acts, t) && forall i :: 0 <= i < |acts| ==> !acts[i].Start?
    ensures Disciplined(s, acts)
    decreases |acts|
  {
    if acts != [] {
      RunsWithoutStartAreDisciplined(Apply(s, acts[0]), acts[1..], t);
    }
  }

  /** In direct mode the callers may do as they like. */
  lemma {:induction false} DirectRunsAreDisciplined(s: State, acts: seq<Action>, t: State)
    requires Run(s, acts, t) && !s.sshMode
    ensures Disciplined(s, acts)
    decreases |acts|
  {
    if acts != [] { DirectRunsAreDisciplined(Apply(s, acts[0]), acts[1..], t); }
  }

  /** main.go's order: one call of Start, before anything else runs. */
  lemma StartOnceIsDisciplined(sshMode: bool, start: Action, later: seq<Action>, t: State)
    requires start.Start? && Run(Init(sshMode), [start] + later, t)
    requires forall i :: 0 <= i < |later| ==> !later[i].Start?
    ensures Disciplined(Init(sshMode), [start] + later)
  {
    var acts := [start] + later;
    assert acts[1..] == later;
    RunsWithoutStartAreDisciplined(Apply(Init(sshMode), start), later, t);
    assert SafeToStart(Init(sshMode));
  }

  // --- exactly when a Start is safe

  /** A run that begins with a Start and has no other one ends with two ssh processes alive. */
  ghost predicate Doubles(s: State, launch: Launch, later: seq<Action>, t: State) {
    && Run(s, [Start(true, launch)] + later, t)
    && (forall i :: 0 <= i < |later| ==> !later[i].Start?)
    && !AtMostOneSsh(t)
  }

  /** However the run goes on after this Start, without a further one, at most one ssh lives. */
  ghost predicate StartIsSafe(s: State) {
    forall launch: Launch, later: seq<Action>, t: State :: !Doubles(s, launch, later, t)
  }

  lemma {:induction false} RunConcat(s: State, a: seq<Action>, t: State, b: seq<Action>, u: State)
    requires Run(s, a, t) && Run(t, b, u)
    ensures Run(s, a + b, u)
    decreases |a|
  {
    if a == [] {
      assert a + b == b;
    } else {
      RunConcat(Apply(s, a[0]), a[1..], t, b, u);
      assert (a + b)[1..] == a[1..] + b;
    }
  }

  lemma RunOne(s: State, a: Action)
    requires Enabled(s, a)
    ensures Run(s, [a], Apply(s, a))
  {
    assert [a][1..] == [];
  }

  lemma RunThen(s: State, acts: seq<Action>, t: State, a: Action)
    requires Run(s, acts, t) && Enabled(t, a)
    ensures Run(s, acts + [a], Apply(t, a))
  {
    RunOne(t, a);
    RunConcat(s, acts, t, [a], Apply(t, a));
  }

  /** A monitor asleep before its restart, a running tunnel and a living ssh: if the tunnel dies
      now, the sleeper restarts it and a second ssh is launched beside the first. */
  lemma SleeperDoublesSsh(u: State, p: Pid, tun: Pid, ssh: Pid) returns (acts: seq<Action>, v: State)
    requires u.sshMode && !u.locked && !u.f.stopped && |u.monitors| == |u.procs|
    requires MonitorAt(u, p, Slipnet, Sleeping) && MonitorAt(u, tun, Slipnet, Waiting)
    requires u.procs[tun].alive && u.f.tunnelCmd == Some(tun) && Alive(u, Ssh, ssh)
    ensures Run(u, acts, v) && !AtMostOneSsh(v) && forall i :: 0 <= i < |acts| ==> !acts[i].Start?
  {
    var a0, a1, a2, a3 := Exit(tun), ReapTunnel(tun), RestartTunnel(p, Launched(0)), FinishStart(SshLaunched);
    RunOne(u, a0);
    var u1 := Apply(u, a0);
    RunThen(u, [a0], u1, a1);
    var u2 := Apply(u1, a1);
    RunThen(u, [a0] + [a1], u2, a2);
    var u3 := Apply(u2, a2);
    RunThen(u, [a0] + [a1] + [a2], u3, a3);
    v := Apply(u3, a3);
    acts := [a0] + [a1] + [a2] + [a3];
    assert Alive(v, Ssh, ssh) && Alive(v, Ssh, |v.procs| - 1);
  }

  /** What Start and a successful launch of ssh lead to. */
  function Started(s: State): State
    requires !s.locked && s.sshMode && s.f.tunnelCmd == None
  {
    Apply(Apply(s, Start(true, Launched(0))), FinishStart(SshLaunched))
  }

  lemma StartedRun(s: State)
    requires |s.monitors| == |s.procs| && !s.locked && s.sshMode && s.f.tunnelCmd == None
    ensures Run(s, [Start(true, Launched(0)), FinishStart(SshLaunched)], Started(s))
    ensures var n := |s.procs|;
            var u := Started(s);
            && u.f == Fields(Some(n), Some(n + 1), s.f.stopped, 0) && !u.locked && u.sshMode
            && u.procs == s.procs + [Process(Slipnet, 0, true), Process(Ssh, 0, true)]
            && u.monitors == s.monitors + [Waiting, Waiting]
  {
    RunOne(s, Start(true, Launched(0)));
    RunThen(s, [Start(true, Launched(0))], Apply(s, Start(true, Launched(0))), FinishStart(SshLaunched));
    assert [Start(true, Launched(0))] + [FinishStart(SshLaunched)]
        == [Start(true, Launched(0)), FinishStart(SshLaunched)];
  }

  /** Brings the pending monitor `p` to its sleep with a tunnel and an ssh running. */
  lemma PendingFallsAsleep(s: State, p: Pid) returns (acts: seq<Action>, v: State, ssh: Pid)
    requires TunnelInv(s) && !s.locked && s.sshMode && s.f.tunnelCmd == None && !s.f.stopped
    requires Pending(s, p) && NoSshAlive(s)
    ensures Run(Started(s), acts, v) && forall i :: 0 <= i < |acts| ==> !acts[i].Start?
    ensures v.sshMode && !v.locked && !v.f.stopped && |v.monitors| == |v.procs|
    ensures MonitorAt(v, p, Slipnet, Sleeping) && MonitorAt(v, |s.procs|, Slipnet, Waiting)
    ensures v.procs[|s.procs|].alive && v.f.tunnelCmd == Some(|s.procs|) && Alive(v, Ssh, ssh)
  {
    StartedRun(s);
    var n := |s.procs|;
    var u := Started(s);
    ssh := n + 1;
    assert ProcessInv(s, p);
    if s.monitors[p].Sleeping? {
      acts, v := [], u;
    } else if s.monitors[p].Terminating? {
      assert Exited(u, u.monitors[p].cmd);
      RunOne(u, SshEnded(p));
      acts, v := [SshEnded(p)], Apply(u, SshEnded(p));
    } else {
      acts, v := ReapedFallsAsleep(u, p, n);
      ssh := n + 2;
    }
  }

  /** stopSSH ends the ssh just launched, whose own monitor launches another. */
  lemma ReapedFallsAsleep(u: State, p: Pid, n: Pid) returns (acts: seq<Action>, v: State)
    requires u.f == Fields(Some(n), Some(n + 1), false, 0) && !u.locked && u.sshMode
    requires |u.procs| == |u.monitors| == n + 2 && p < n && MonitorAt(u, p, Slipnet, Reaped)
    requires MonitorAt(u, n, Slipnet, Waiting) && MonitorAt(u, n + 1, Ssh, Waiting)
    requires Alive(u, Slipnet, n) && Alive(u, Ssh, n + 1)
    ensures Run(u, acts, v) && forall i :: 0 <= i < |acts| ==> !acts[i].Start?
    ensures v.sshMode && !v.locked && !v.f.stopped && |v.monitors| == |v.procs|
    ensures MonitorAt(v, p, Slipnet, Sleeping) && MonitorAt(v, n, Slipnet, Waiting)
    ensures v.procs[n].alive && v.f.tunnelCmd == Some(n) && Alive(v, Ssh, n + 2)
  {
    hide Run;
    var a0, a1, a2, a3, a4 := ReadSshHandle(p), Exit(n + 1), SshEnded(p), ReapSsh(n + 1), RestartSsh(n + 1, true);
    RunOne(u, a0);
    var u1 := Apply(u, a0);
    RunThen(u, [a0], u1, a1);
    var u2 := Apply(u1, a1);
    RunThen(u, [a0] + [a1], u2, a2);
    var u3 := Apply(u2, a2);
    RunThen(u, [a0] + [a1] + [a2], u3, a3);
    var u4 := Apply(u3, a3);
    RunThen(u, [a0] + [a1] + [a2] + [a3], u4, a4);
    acts, v := [a0] + [a1] + [a2] + [a3] + [a4], Apply(u4, a4);
  }

  lemma UnsafeStart(s: State) returns (later: seq<Action>, t: State)
    requires TunnelInv(s) && !s.locked && !SafeToStart(s)
    ensures Doubles(s, Launched(0), later, t)
  {
    StartedRun(s);
    var u := Started(s);
    var first := [Start(true, Launched(0)), FinishStart(SshLaunched)];
    later, t := [FinishStart(SshLaunched)], u;
    if !NoSshAlive(s) {
      var q: Pid :| q < |s.procs| && s.procs[q].alive && s.procs[q].kind == Ssh;
      assert Alive(u, Ssh, q) && Alive(u, Ssh, |s.procs| + 1);
      assert [Start(true, Launched(0))] + later == first;
    } else {
      var p: Pid :| p < |s.procs| && Pending(s, p);
      var acts, v, ssh := PendingFallsAsleep(s, p);
      var more, w := SleeperDoublesSsh(v, p, |s.procs|, ssh);
      RunConcat(u, acts, v, more, w);
      RunConcat(s, first, u, acts + more, w);
      later, t := [FinishStart(SshLaunched)] + (acts + more), w;
      assert [Start(true, Launched(0))] + later == first + (acts + more);
    }
  }

  /** Exactly when a Start keeps the ssh guarantee.  Wherever it can launch, whatever calls came
      before, it is safe if and only if no ssh is alive and, unless the manager is stopped, no
      restart is pending: startSSH overwrites sshCmd unchecked.  In direct mode it always is. */
  lemma StartIsSafeExactly(sshMode: bool, acts: seq<Action>, s: State)
    requires Run(Init(sshMode), acts, s) && !s.locked
    requires s.f.tunnelCmd == None || Disciplined(Init(sshMode), acts)
    ensures StartIsSafe(s) <==> SafeToStart(s)
  {
    hide SshInv, TunnelInv, SafeToStart, Doubles;
    InitSshInv(sshMode);
    RunKeepsTunnelInv(Init(sshMode), acts, s);
    if SafeToStart(s) {
      if s.f.tunnelCmd == None { SafeMeansSshInv(s); } else { RunKeepsSshInv(Init(sshMode), acts, s); }
      forall launch: Launch, later: seq<Action>, t: State ensures !Doubles(s, launch, later, t) {
        SafeDoesNotDouble(s, launch, later, t);
      }
    } else {
      var later, t := UnsafeStart(s);
    }
  }

  lemma InitSshInv(sshMode: bool)
    ensures SshInv(Init(sshMode)) && TunnelInv(Init(sshMode))
  {}

  /** Where nothing is left to wind down, no earlier call matters. */
  lemma SafeMeansSshInv(s: State)
    requires TunnelInv(s) && SafeToStart(s) && s.f.tunnelCmd == None
    ensures SshInv(s)
  {
    if !s.sshMode { DirectHasNoSsh(s); }
    assert !SshLive(s);
    forall p: Pid | p < |s.procs| ensures ProcessOk(s, p) {}
  }

  lemma SafeDoesNotDouble(s: State, launch: Launch, later: seq<Action>, t: State)
    requires SshInv(s) && SafeToStart(s)
    ensures !Doubles(s, launch, later, t)
  {
    hide SshInv, SafeToStart;
    if Doubles(s, launch, later, t) {
      var run := [Start(true, launch)] + later;
      assert run[1..] == later && run[0] == Start(true, launch);
      RunsWithoutStartAreDisciplined(Apply(s, run[0]), later, t);
      RunKeepsSshInv(s, run, t);
      InvBoundsSsh(t);
      assert false;
    }
  }
}

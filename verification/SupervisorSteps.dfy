/**
 * What the steps of the supervisor bring about, stated on the processes and handles: which steps
 * launch something and what, what a monitor does on its way, and that a dead tunnel or ssh can
 * be brought back by its own monitor from every reachable state, in either mode.
 */
module SupervisorSteps {
  import opened Options
  import opened Supervisor
  import opened SshChain

  // --- launches

  /** One process is added: a living slipnet at `port`, which is now the tunnel.  In ssh mode its
      port is recorded and the lock is held until ssh is dealt with. */
  ghost predicate LaunchesTunnel(s: State, t: State, port: int) {
    && t.procs == s.procs + [Process(Slipnet, port, true)]
    && t.f.tunnelCmd == Some(|s.procs|) && t.f.sshCmd == s.f.sshCmd && t.f.stopped == s.f.stopped
    && (t.locked <==> s.sshMode) && (s.sshMode ==> t.f.tunnelPort == port)
    && t.sshMode == s.sshMode && t.stopper == s.stopper
    && |t.monitors| == |s.monitors| + 1 && t.monitors[|s.monitors|] == Waiting
  }

  /** One process is added: a living ssh that dials the recorded port, and which is now sshCmd. */
  ghost predicate LaunchesSsh(s: State, t: State) {
    && t.procs == s.procs + [Process(Ssh, s.f.tunnelPort, true)]
    && t.f.sshCmd == Some(|s.procs|) && t.f.tunnelCmd == s.f.tunnelCmd && t.f.stopped == s.f.stopped
    && t.f.tunnelPort == s.f.tunnelPort && !t.locked && t.sshMode == s.sshMode && t.stopper == s.stopper
    && |t.monitors| == |s.monitors| + 1 && t.monitors[|s.monitors|] == Waiting
  }

  /** The monitors of the other processes stay where they are. */
  ghost predicate OthersStay(s: State, t: State, p: Pid) {
    |s.monitors| <= |t.monitors| && forall q: Pid :: q < |s.monitors| && q != p ==> t.monitors[q] == s.monitors[q]
  }

  lemma StartLaunchesTunnel(s: State, port: int)
    requires !s.locked && s.f.tunnelCmd == None
    ensures var t := Apply(s, Start(true, Launched(port)));
            LaunchesTunnel(s, t, port) && forall p: Pid :: OthersStay(s, t, p)
  {}

  /** Start changes nothing when there is a tunnel or no binary, and nothing but the recorded port
      when the launch fails. */
  lemma StartRefuses(s: State, found: bool, launch: Launch)
    requires !s.locked
    ensures var t := Apply(s, Start(found, launch));
            && (s.f.tunnelCmd.Some? || !found ==> t == s)
            && (!launch.Launched? ==> t.(f := t.f.(tunnelPort := s.f.tunnelPort)) == s)
  {}

  /** monitorTunnel restarts a tunnel in either mode. */
  lemma MonitorRestartsTunnel(s: State, p: Pid, port: int)
    requires MonitorAt(s, p, Slipnet, Sleeping) && !s.locked && !s.f.stopped && s.f.tunnelCmd == None
    requires |s.monitors| == |s.procs|
    ensures Enabled(s, RestartTunnel(p, Launched(port)))
    ensures var t := Apply(s, RestartTunnel(p, Launched(port)));
            LaunchesTunnel(s, t, port) && t.monitors[p] == Finished && OthersStay(s, t, p)
  {}

  lemma MonitorRestartsSsh(s: State, p: Pid)
    requires MonitorAt(s, p, Ssh, Sleeping) && !s.locked && !s.f.stopped && s.f.tunnelCmd.Some? && s.f.sshCmd == None
    requires |s.monitors| == |s.procs|
    ensures Enabled(s, RestartSsh(p, true))
    ensures var t := Apply(s, RestartSsh(p, true));
            LaunchesSsh(s, t) && t.monitors[p] == Finished && OthersStay(s, t, p)
  {}

  lemma ChainLaunchesSsh(s: State, chain: Chain)
    requires s.locked
    ensures var t := Apply(s, FinishStart(chain));
            && (chain.SshLaunched? ==> LaunchesSsh(s, t) && forall p: Pid :: OthersStay(s, t, p))
            && (!chain.SshLaunched? ==> t == s.(locked := false))
  {}

  /** And nothing else is ever launched. */
  lemma LaunchesExactly(s: State, a: Action)
    requires Enabled(s, a)
    ensures |Apply(s, a).procs| != |s.procs| <==>
            match a
            case Start(found, launch) => found && launch.Launched? && s.f.tunnelCmd == None
            case RestartTunnel(_, launch) => launch.Launched? && !s.f.stopped && s.f.tunnelCmd == None
            case FinishStart(chain) => chain.SshLaunched?
            case RestartSsh(_, launched) => launched && !s.f.stopped && s.f.sshCmd == None && s.f.tunnelCmd.Some?
            case _ => false
  {}

  // --- monitors on their way

  /** The steps of a monitor that launch nothing: it gives up its own handle and no other, is done
      if the manager is stopped, waits in stopSSH for the ssh whose handle it reads, and sleeps. */
  lemma MonitorMoves(s: State, a: Action)
    requires Enabled(s, a) && (a.ReapTunnel? || a.ReapSsh? || a.ReadSshHandle? || a.SshEnded?)
    ensures var t := Apply(s, a);
            && OthersStay(s, t, a.p) && |t.monitors| == |s.monitors| && a.p < |s.monitors|
            && t.procs == s.procs && t.locked == s.locked && t.stopper == s.stopper && t.sshMode == s.sshMode
            && t.f.stopped == s.f.stopped && t.f.tunnelPort == s.f.tunnelPort
            && t.f.tunnelCmd == (if a.ReapTunnel? && s.f.tunnelCmd == Some(a.p) then None else s.f.tunnelCmd)
            && t.f.sshCmd == (if a.ReapSsh? && s.f.sshCmd == Some(a.p) then None else s.f.sshCmd)
            && t.monitors[a.p] == (if a.ReadSshHandle? then Terminating(s.f.sshCmd)
                                   else if a.SshEnded? then Sleeping
                                   else if s.f.stopped then Finished
                                   else if a.ReapTunnel? then Reaped else Sleeping)
  {}

  /** A process that exits takes nothing else along. */
  lemma ExitMoves(s: State, p: Pid)
    requires Enabled(s, Exit(p))
    ensures var t := Apply(s, Exit(p));
            && !t.procs[p].alive && t.procs[p].kind == s.procs[p].kind && t.procs[p].port == s.procs[p].port
            && t.(procs := s.procs) == s && |t.procs| == |s.procs|
            && forall q: Pid :: q < |s.procs| && q != p ==> t.procs[q] == s.procs[q]
  {}

  /** Stop marks the manager, takes both handles and then waits for first the one, then the other. */
  lemma StopMoves(s: State, a: Action)
    requires Enabled(s, a) && (a.StopSection? || a.StopSshEnded? || a.StopTunnelEnded?)
    ensures var t := Apply(s, a);
            && t.procs == s.procs && t.monitors == s.monitors && t.locked == s.locked && t.sshMode == s.sshMode
            && t.f.(stopped := s.f.stopped) == s.f && (t.f.stopped <==> s.f.stopped || a.StopSection?)
            && (a.StopSection? ==> t.stopper == EndingSsh(s.f.tunnelCmd, s.f.sshCmd))
            && (a.StopSshEnded? ==> t.stopper == EndingTunnel(s.stopper.tunnel))
            && (a.StopTunnelEnded? ==> t.stopper == StopReturned)
  {}

  // --- bringing back what died

  /** Steps of the one monitor, and the end of an ssh. */
  ghost predicate OnlyMonitor(s: State, acts: seq<Action>, p: Pid) {
    forall i :: 0 <= i < |acts| ==>
      match acts[i]
      case ReapTunnel(q) => q == p
      case ReadSshHandle(q) => q == p
      case SshEnded(q) => q == p
      case RestartTunnel(q, _) => q == p
      case ReapSsh(q) => q == p
      case RestartSsh(q, _) => q == p
      case Exit(q) => s.f.sshCmd == Some(q)
      case _ => false
  }

  /** From every reachable state in which the tunnel has died and the manager is not stopped, in
      either mode, its own monitor alone brings a tunnel back at whatever port it is given. */
  lemma TunnelCanBeRestored(sshMode: bool, before: seq<Action>, s: State, p: Pid, port: int)
    returns (acts: seq<Action>, t: State)
    requires Run(Init(sshMode), before, s) && !s.locked && !s.f.stopped
    requires s.f.tunnelCmd == Some(p) && p < |s.procs| && !s.procs[p].alive
    ensures Run(s, acts, t) && OnlyMonitor(s, acts, p)
    ensures Alive(t, Slipnet, |s.procs|) && t.f.tunnelCmd == Some(|s.procs|) && t.procs[|s.procs|].port == port
  {
    hide Run, TunnelInv;
    InitSshInv(sshMode);
    RunKeepsTunnelInv(Init(sshMode), before, s);
    HandleIsWaiting(s, p);
    RunOne(s, ReapTunnel(p));
    var s1 := Apply(s, ReapTunnel(p));
    RunThen(s, [ReapTunnel(p)], s1, ReadSshHandle(p));
    var s2 := Apply(s1, ReadSshHandle(p));
    var first := [ReapTunnel(p)] + [ReadSshHandle(p)];
    var more;
    more, t := WaitAndRestart(s2, p, port);
    RunConcat(s, first, s2, more, t);
    acts := first + more;
  }

  /** From stopSSH to the new tunnel. */
  lemma WaitAndRestart(s: State, p: Pid, port: int) returns (acts: seq<Action>, t: State)
    requires !s.locked && !s.f.stopped && s.f.tunnelCmd == None && |s.monitors| == |s.procs|
    requires MonitorAt(s, p, Slipnet, Terminating(s.f.sshCmd))
    requires s.f.sshCmd.Some? ==> s.f.sshCmd.value < |s.procs| && s.procs[s.f.sshCmd.value].kind == Ssh
    ensures Run(s, acts, t) && OnlyMonitor(s, acts, p)
    ensures Alive(t, Slipnet, |s.procs|) && t.f.tunnelCmd == Some(|s.procs|) && t.procs[|s.procs|].port == port
  {
    hide Run;
    var s2 := s;
    acts := [];
    EmptyRun(s);
    if !Exited(s, s.f.sshCmd) {
      RunOne(s, Exit(s.f.sshCmd.value));
      acts, s2 := [Exit(s.f.sshCmd.value)], Apply(s, Exit(s.f.sshCmd.value));
    }
    RunThen(s, acts, s2, SshEnded(p));
    var s3 := Apply(s2, SshEnded(p));
    RunThen(s, acts + [SshEnded(p)], s3, RestartTunnel(p, Launched(port)));
    acts, t := acts + [SshEnded(p)] + [RestartTunnel(p, Launched(port))], Apply(s3, RestartTunnel(p, Launched(port)));
  }

  lemma EmptyRun(s: State)
    ensures Run(s, [], s)
  {}

  lemma HandleIsWaiting(s: State, p: Pid)
    requires TunnelInv(s) && s.f.tunnelCmd == Some(p)
    ensures |s.monitors| == |s.procs| && MonitorAt(s, p, Slipnet, Waiting)
    ensures s.f.sshCmd.Some? ==> s.f.sshCmd.value < |s.procs| && s.procs[s.f.sshCmd.value].kind == Ssh
  {}

  /** Likewise an ssh that died under a running tunnel. */
  lemma SshCanBeRestored(s: State, q: Pid) returns (acts: seq<Action>, t: State)
    requires TunnelInv(s) && !s.locked && !s.f.stopped && s.f.tunnelCmd.Some?
    requires s.f.sshCmd == Some(q) && MonitorAt(s, q, Ssh, Waiting) && !s.procs[q].alive
    ensures Run(s, acts, t) && OnlyMonitor(s, acts, q)
    ensures Alive(t, Ssh, |s.procs|) && t.f.sshCmd == Some(|s.procs|) && t.f.tunnelCmd == s.f.tunnelCmd
    ensures t.procs[|s.procs|].port == s.f.tunnelPort
  {
    hide Run;
    RunOne(s, ReapSsh(q));
    var s1 := Apply(s, ReapSsh(q));
    RunThen(s, [ReapSsh(q)], s1, RestartSsh(q, true));
    acts, t := [ReapSsh(q)] + [RestartSsh(q, true)], Apply(s1, RestartSsh(q, true));
  }

  /** A run in direct mode that restarts: one tunnel dies, a second one runs. */
  lemma DirectModeRestarts() returns (acts: seq<Action>, t: State)
    ensures Run(Init(false), acts, t) && Alive(t, Slipnet, 1) && t.f.tunnelCmd == Some(1) && !t.procs[0].alive
    ensures forall i :: 1 <= i < |acts| ==> !acts[i].Start?
  {
    hide Run;
    var go := Start(true, Launched(0));
    RunOne(Init(false), go);
    var s1 := Apply(Init(false), go);
    RunThen(Init(false), [go], s1, Exit(0));
    var s := Apply(s1, Exit(0));
    var more;
    more, t := TunnelCanBeRestored(false, [go] + [Exit(0)], s, 0, 0);
    RunConcat(Init(false), [go] + [Exit(0)], s, more, t);
    DeadStay(s, more, t, 0);
    acts := [go] + [Exit(0)] + more;
  }

  lemma {:induction false} DeadStay(s: State, acts: seq<Action>, t: State, p: Pid)
    requires Run(s, acts, t) && p < |s.procs| && !s.procs[p].alive
    ensures p < |t.procs| && !t.procs[p].alive
    decreases |acts|
  {
    if acts != [] { DeadStay(Apply(s, acts[0]), acts[1..], t, p); }
  }
}

/**
 * The process supervisor of tunnel.go as a transition system.
 *
 * Threads are the caller of Start, the caller of Stop and one monitor goroutine per process
 * ever launched (monitorTunnel for slipnet, monitorSSH for ssh).  A section under the mutex
 * is one step, except startWithSSH: it keeps the mutex between launching slipnet and
 * launching ssh, so it is two steps with `locked` set in between, and processes may exit
 * there.  Pauses and waits without the mutex let every other thread run.
 *
 * Assumptions: cmd.Wait returns only after the process has exited, and stopSSH and Stop get
 * past a handle only when its process has exited (SIGTERM honoured, or Kill effective).
 */
module Supervisor {
  import opened Options

  /** A process, numbered in order of launch; a `*exec.Cmd` handle is its number. */
  type Pid = nat

  datatype Kind = Slipnet | Ssh

  /** `port`: where slipnet listens internally, or where ssh dials. */
  datatype Process = Process(kind: Kind, port: int, alive: bool)

  /** The fields of TunnelManager that its methods update. */
  datatype Fields = Fields(tunnelCmd: Option<Pid>, sshCmd: Option<Pid>, stopped: bool, tunnelPort: int)

  /** Where a monitor goroutine is. */
  datatype Monitor =
    | Waiting                          // in cmd.Wait
    | Reaped                           // monitorTunnel: first section done, about to stop ssh
    | Terminating(cmd: Option<Pid>)    // monitorTunnel: in stopSSH with the handle it read
    | Sleeping                         // before the second section
    | Finished

  datatype Stopper =
    | NotCalled
    | EndingSsh(tunnel: Option<Pid>, ssh: Option<Pid>)
    | EndingTunnel(tunnel: Option<Pid>)
    | StopReturned

  datatype State = State(sshMode: bool, f: Fields, procs: seq<Process>, monitors: seq<Monitor>,
                         locked: bool, stopper: Stopper)

  function Init(sshMode: bool): State {
    State(sshMode, Fields(None, None, false, 0), [], [], false, NotCalled)
  }

  /** How an attempt to launch slipnet ends: no free port (SSH mode only), the launch fails, or
      it succeeds, with the internal port chosen for it. */
  datatype Launch = NoPort | Fails(port: int) | Launched(port: int)

  /** How the rest of startWithSSH ends. */
  datatype Chain = PortNeverOpens | SshFails | SshLaunched

  datatype Action =
    | Start(binaryFound: bool, launch: Launch)
    | FinishStart(chain: Chain)
    | Exit(p: Pid)
    | ReapTunnel(p: Pid)
    | ReadSshHandle(p: Pid)
    | SshEnded(p: Pid)
    | RestartTunnel(p: Pid, launch: Launch)
    | ReapSsh(p: Pid)
    | RestartSsh(p: Pid, launched: bool)
    | StopSection
    | StopSshEnded
    | StopTunnelEnded

  predicate Exited(s: State, cmd: Option<Pid>) {
    cmd.Some? && cmd.value < |s.procs| ==> !s.procs[cmd.value].alive
  }

  predicate MonitorAt(s: State, p: Pid, kind: Kind, m: Monitor) {
    p < |s.procs| && p < |s.monitors| && s.procs[p].kind == kind && s.monitors[p] == m
  }

  predicate Enabled(s: State, a: Action) {
    match a
    case Start(_, _) => !s.locked
    case FinishStart(_) => s.locked
    case Exit(p) => p < |s.procs| && s.procs[p].alive
    case ReapTunnel(p) => !s.locked && MonitorAt(s, p, Slipnet, Waiting) && !s.procs[p].alive
    case ReadSshHandle(p) => !s.locked && MonitorAt(s, p, Slipnet, Reaped)
    case SshEnded(p) =>
      && p < |s.procs| && p < |s.monitors| && s.procs[p].kind == Slipnet
      && s.monitors[p].Terminating? && Exited(s, s.monitors[p].cmd)
    case RestartTunnel(p, _) => !s.locked && MonitorAt(s, p, Slipnet, Sleeping)
    case ReapSsh(p) => !s.locked && MonitorAt(s, p, Ssh, Waiting) && !s.procs[p].alive
    case RestartSsh(p, _) => !s.locked && MonitorAt(s, p, Ssh, Sleeping)
    case StopSection => !s.locked && s.stopper.NotCalled?
    case StopSshEnded => s.stopper.EndingSsh? && Exited(s, s.stopper.ssh)
    case StopTunnelEnded => s.stopper.EndingTunnel? && Exited(s, s.stopper.tunnel)
  }

  // --- the locked sections on the fields, shared with the class TunnelManager

  /** startLocked up to the launch of slipnet; `p` is the number the new process would get. */
  function AfterLaunch(f: Fields, sshMode: bool, launch: Launch, p: Pid): Fields {
    match launch
    case NoPort => f
    case Fails(port) => if sshMode then f.(tunnelPort := port) else f
    case Launched(port) =>
      if sshMode then f.(tunnelPort := port, tunnelCmd := Some(p)) else f.(tunnelCmd := Some(p))
  }

  function AfterReapTunnel(f: Fields, p: Pid): Fields {
    if f.tunnelCmd == Some(p) then f.(tunnelCmd := None) else f
  }

  function AfterReapSsh(f: Fields, p: Pid): Fields {
    if f.sshCmd == Some(p) then f.(sshCmd := None) else f
  }

  /** May the second section of monitorTunnel start a tunnel? */
  predicate MayRestartTunnel(f: Fields) {
    !f.stopped && f.tunnelCmd == None
  }

  predicate MayRestartSsh(f: Fields) {
    !f.stopped && f.sshCmd == None && f.tunnelCmd.Some?
  }

  // --- steps

  function AddProcess(s: State, kind: Kind, port: int): State {
    s.(procs := s.procs + [Process(kind, port, true)], monitors := s.monitors + [Waiting])
  }

  function LaunchTunnel(s: State, launch: Launch): State {
    var s1 := s.(f := AfterLaunch(s.f, s.sshMode, launch, |s.procs|));
    if launch.Launched? then AddProcess(s1, Slipnet, launch.port).(locked := s.sshMode) else s1
  }

  /** startSSH: dials tm.tunnelPort and overwrites the handle. */
  function LaunchSsh(s: State): State {
    AddProcess(s.(f := s.f.(sshCmd := Some(|s.procs|))), Ssh, s.f.tunnelPort)
  }

  function Move(s: State, p: Pid, m: Monitor): State
    requires p < |s.monitors|
  {
    s.(monitors := s.monitors[p := m])
  }

  function Apply(s: State, a: Action): State
    requires Enabled(s, a)
  {
    match a
    case Start(found, launch) =>
      if s.f.tunnelCmd.Some? || !found then s else LaunchTunnel(s, launch)
    case FinishStart(chain) =>
      var s1 := s.(locked := false);
      if chain.SshLaunched? then LaunchSsh(s1) else s1
    case Exit(p) => s.(procs := s.procs[p := s.procs[p].(alive := false)])
    case ReapTunnel(p) =>
      Move(s.(f := AfterReapTunnel(s.f, p)), p, if s.f.stopped then Finished else Reaped)
    case ReadSshHandle(p) => Move(s, p, Terminating(s.f.sshCmd))
    case SshEnded(p) => Move(s, p, Sleeping)
    case RestartTunnel(p, launch) =>
      var s1 := Move(s, p, Finished);
      if MayRestartTunnel(s.f) then LaunchTunnel(s1, launch) else s1
    case ReapSsh(p) =>
      Move(s.(f := AfterReapSsh(s.f, p)), p, if s.f.stopped then Finished else Sleeping)
    case RestartSsh(p, launched) =>
      var s1 := Move(s, p, Finished);
      if MayRestartSsh(s.f) && launched then LaunchSsh(s1) else s1
    case StopSection =>
      s.(f := s.f.(stopped := true), stopper := EndingSsh(s.f.tunnelCmd, s.f.sshCmd))
    case StopSshEnded => s.(stopper := EndingTunnel(s.stopper.tunnel))
    case StopTunnelEnded => s.(stopper := StopReturned)
  }

  /** `acts` is an interleaving that leads from `s` to `t`. */
  ghost predicate Run(s: State, acts: seq<Action>, t: State)
    decreases |acts|
  {
    if acts == [] then t == s
    else Enabled(s, acts[0]) && Run(Apply(s, acts[0]), acts[1..], t)
  }

  ghost predicate Alive(s: State, kind: Kind, p: Pid) {
    p < |s.procs| && s.procs[p].kind == kind && s.procs[p].alive
  }

  // --- safety of the tunnel, whoever calls Start and however often

  /** What holds of every process ever launched. */
  ghost predicate ProcessInv(s: State, p: Pid)
    requires p < |s.procs| == |s.monitors|
  {
    && (s.procs[p].alive ==> s.monitors[p] == Waiting)
    && (s.procs[p].kind == Slipnet && s.monitors[p] == Waiting ==> s.f.tunnelCmd == Some(p))
    && (s.monitors[p].Terminating? ==> IsSshHandle(s, s.monitors[p].cmd))
    && (s.procs[p].kind == Ssh ==>
          s.sshMode && (s.monitors[p].Waiting? || s.monitors[p].Sleeping? || s.monitors[p].Finished?))
  }

  ghost predicate IsSshHandle(s: State, cmd: Option<Pid>) {
    cmd.Some? ==> cmd.value < |s.procs| && s.procs[cmd.value].kind == Ssh
  }

  ghost predicate TunnelInv(s: State) {
    && |s.monitors| == |s.procs|
    && (s.f.tunnelCmd.Some? ==>
          var t := s.f.tunnelCmd.value;
          MonitorAt(s, t, Slipnet, Waiting) && (s.sshMode ==> s.procs[t].port == s.f.tunnelPort))
    && IsSshHandle(s, s.f.sshCmd)
    && (s.locked ==> s.sshMode && s.f.tunnelCmd.Some?)
    && forall p: Pid :: p < |s.procs| ==> ProcessInv(s, p)
  }

  lemma LaunchTunnelKeepsTunnelInv(s: State, launch: Launch)
    requires TunnelInv(s) && s.f.tunnelCmd == None
    ensures TunnelInv(LaunchTunnel(s, launch))
  {
    var t := LaunchTunnel(s, launch);
    forall p: Pid | p < |t.procs| ensures ProcessInv(t, p) {
      if p < |s.procs| { assert ProcessInv(s, p); }
    }
  }

  lemma LaunchSshKeepsTunnelInv(s: State)
    requires TunnelInv(s) && s.sshMode
    ensures TunnelInv(LaunchSsh(s))
  {
    var t := LaunchSsh(s);
    forall p: Pid | p < |t.procs| ensures ProcessInv(t, p) {
      if p < |s.procs| { assert ProcessInv(s, p); }
    }
  }

  lemma MoveKeepsTunnelInv(s: State, p: Pid, m: Monitor)
    requires TunnelInv(s) && p < |s.procs| && !s.procs[p].alive && s.f.tunnelCmd != Some(p)
    requires m.Terminating? ==> IsSshHandle(s, m.cmd)
    requires !m.Waiting? && (s.procs[p].kind == Ssh ==> m.Sleeping? || m.Finished?)
    ensures TunnelInv(Move(s, p, m))
  {
    var t := Move(s, p, m);
    forall q: Pid | q < |t.procs| ensures ProcessInv(t, q) { assert ProcessInv(s, q); }
  }

  lemma ReapTunnelKeepsTunnelInv(s: State, p: Pid)
    requires TunnelInv(s) && Enabled(s, ReapTunnel(p))
    ensures TunnelInv(Apply(s, ReapTunnel(p)))
  {
    var t := Apply(s, ReapTunnel(p));
    forall q: Pid | q < |t.procs| ensures ProcessInv(t, q) { assert ProcessInv(s, q) && ProcessInv(s, p); }
  }

  lemma ReapSshKeepsTunnelInv(s: State, p: Pid)
    requires TunnelInv(s)
    ensures TunnelInv(s.(f := AfterReapSsh(s.f, p)))
  {
    var t := s.(f := AfterReapSsh(s.f, p));
    forall q: Pid | q < |s.procs| ensures ProcessInv(t, q) { assert ProcessInv(s, q); }
  }

  lemma FlagsKeepTunnelInv(s: State, stopped: bool, stopper: Stopper, locked: bool)
    requires TunnelInv(s) && (locked ==> s.locked)
    ensures TunnelInv(s.(f := s.f.(stopped := stopped), stopper := stopper, locked := locked))
  {
    var t := s.(f := s.f.(stopped := stopped), stopper := stopper, locked := locked);
    forall q: Pid | q < |s.procs| ensures ProcessInv(t, q) { assert ProcessInv(s, q); }
  }

  lemma ExitKeepsTunnelInv(s: State, p: Pid)
    requires TunnelInv(s) && Enabled(s, Exit(p))
    ensures TunnelInv(Apply(s, Exit(p)))
  {
    var t := Apply(s, Exit(p));
    forall q: Pid | q < |t.procs| ensures ProcessInv(t, q) { assert ProcessInv(s, q); }
  }

  lemma StepKeepsTunnelInv(s: State, a: Action)
    requires TunnelInv(s) && Enabled(s, a)
    ensures TunnelInv(Apply(s, a))
  {
    hide TunnelInv;
    TunnelInvFacts(s, a);
    match a
    case Start(found, launch) =>
      if s.f.tunnelCmd == None && found { LaunchTunnelKeepsTunnelInv(s, launch); }
    case FinishStart(chain) =>
      FlagsKeepTunnelInv(s, s.f.stopped, s.stopper, false);
      if chain.SshLaunched? { LaunchSshKeepsTunnelInv(s.(locked := false)); }
    case Exit(p) => ExitKeepsTunnelInv(s, p);
    case ReapTunnel(p) => ReapTunnelKeepsTunnelInv(s, p);
    case ReadSshHandle(p) => MoveKeepsTunnelInv(s, p, Terminating(s.f.sshCmd));
    case SshEnded(p) => MoveKeepsTunnelInv(s, p, Sleeping);
    case RestartTunnel(p, launch) =>
      MoveKeepsTunnelInv(s, p, Finished);
      if MayRestartTunnel(s.f) { LaunchTunnelKeepsTunnelInv(Move(s, p, Finished), launch); }
    case ReapSsh(p) =>
      ReapSshKeepsTunnelInv(s, p);
      MoveKeepsTunnelInv(s.(f := AfterReapSsh(s.f, p)), p, if s.f.stopped then Finished else Sleeping);
    case RestartSsh(p, launched) =>
      MoveKeepsTunnelInv(s, p, Finished);
      if MayRestartSsh(s.f) && launched { LaunchSshKeepsTunnelInv(Move(s, p, Finished)); }
    case StopSection => FlagsKeepTunnelInv(s, true, EndingSsh(s.f.tunnelCmd, s.f.sshCmd), s.locked);
    case StopSshEnded => FlagsKeepTunnelInv(s, s.f.stopped, EndingTunnel(s.stopper.tunnel), s.locked);
    case StopTunnelEnded => FlagsKeepTunnelInv(s, s.f.stopped, StopReturned, s.locked);
  }

  /** What an enabled monitor step says about its process. */
  lemma TunnelInvFacts(s: State, a: Action)
    requires TunnelInv(s) && Enabled(s, a)
    ensures |s.monitors| == |s.procs|
    ensures a.FinishStart? ==> s.sshMode
    ensures IsSshHandle(s, s.f.sshCmd)
    ensures a.ReadSshHandle? || a.SshEnded? || a.RestartTunnel? || a.RestartSsh? ==>
              !s.procs[a.p].alive && s.f.tunnelCmd != Some(a.p)
    ensures a.ReapSsh? ==> s.f.tunnelCmd != Some(a.p)
    ensures a.RestartSsh? || a.ReapSsh? ==> s.sshMode
  {
    if a.ReadSshHandle? || a.SshEnded? || a.RestartTunnel? || a.ReapSsh? || a.RestartSsh? { assert ProcessInv(s, a.p); }
  }

  lemma {:induction false} RunKeepsTunnelInv(s: State, acts: seq<Action>, t: State)
    requires TunnelInv(s) && Run(s, acts, t)
    ensures TunnelInv(t)
    decreases |acts|
  {
    if acts != [] {
      StepKeepsTunnelInv(s, acts[0]);
      RunKeepsTunnelInv(Apply(s, acts[0]), acts[1..], t);
    }
  }

  /** Supervisor safety: in every interleaving at most one slipnet process is alive, and if one
      is alive it is exactly tunnelCmd. */
  lemma AtMostOneTunnel(sshMode: bool, acts: seq<Action>, t: State)
    requires Run(Init(sshMode), acts, t)
    ensures forall p: Pid :: Alive(t, Slipnet, p) ==> t.f.tunnelCmd == Some(p)
    ensures forall p: Pid, q: Pid :: Alive(t, Slipnet, p) && Alive(t, Slipnet, q) ==> p == q
  {
    RunKeepsTunnelInv(Init(sshMode), acts, t);
    forall p: Pid | Alive(t, Slipnet, p) ensures t.f.tunnelCmd == Some(p) { assert ProcessInv(t, p); }
  }

  /** The handle of a tunnel is given up only by the monitor of that very process: as long as
      that monitor has not reaped it, no older monitor, no restart and no Start replaces it, and
      a pending restart that finds it starts nothing: no other slipnet is ever launched. */
  lemma {:induction false} OnlyItsMonitorClearsTheHandle(s: State, acts: seq<Action>, t: State, p: Pid)
    requires Run(s, acts, t) && s.f.tunnelCmd == Some(p) && ReapTunnel(p) !in acts
    ensures t.f.tunnelCmd == Some(p) && |s.procs| <= |t.procs|
    ensures forall q: Pid :: q < |t.procs| && t.procs[q].kind == Slipnet ==> q < |s.procs| && s.procs[q].kind == Slipnet
    decreases |acts|
  {
    if acts != [] {
      assert acts[0] in acts && forall a :: a in acts[1..] ==> a in acts;
      HeldHandleStep(s, acts[0], p);
      OnlyItsMonitorClearsTheHandle(Apply(s, acts[0]), acts[1..], t, p);
    }
  }

  lemma HeldHandleStep(s: State, a: Action, p: Pid)
    requires Enabled(s, a) && s.f.tunnelCmd == Some(p) && a != ReapTunnel(p)
    ensures var u := Apply(s, a);
            && u.f.tunnelCmd == Some(p) && |s.procs| <= |u.procs|
            && forall q: Pid :: q < |u.procs| && u.procs[q].kind == Slipnet ==>
                 q < |s.procs| && s.procs[q].kind == Slipnet
  {}
}

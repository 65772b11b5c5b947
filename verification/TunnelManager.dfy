/**
 * TunnelManager of tunnel.go: its fields and the sections it runs under the mutex.  Each
 * method is one step of the transition system in Supervisor.dfy: started in a state with these
 * fields, it leaves the fields of the next state and reports what the goroutine does next.
 *
 * The operating system is a parameter: whether the binary is found, how a launch ends, and the
 * number `next` a newly launched process gets.
 */
module TunnelManager {
  import opened Options
  import opened Supervisor

  class Manager {
    const sshEnabled: bool
    var tunnelCmd: Option<Pid>
    var sshCmd: Option<Pid>
    var stopped: bool
    var tunnelPort: int

    constructor (sshEnabled: bool)
      ensures this.sshEnabled == sshEnabled && At(Init(sshEnabled))
    {
      this.sshEnabled := sshEnabled;
      tunnelCmd, sshCmd, stopped, tunnelPort := None, None, false, 0;
    }

    /** The object is in state `s` of the transition system. */
    ghost predicate At(s: State)
      reads this
    {
      s.sshMode == sshEnabled && s.f == Fields(tunnelCmd, sshCmd, stopped, tunnelPort)
    }

    method Start(binaryFound: bool, launch: Launch, next: Pid, ghost s: State) returns (refused: bool)
      requires At(s) && Enabled(s, Action.Start(binaryFound, launch)) && next == |s.procs|
      modifies this
      ensures At(Apply(s, Action.Start(binaryFound, launch)))
      ensures refused <==> old(tunnelCmd).Some? || !binaryFound
    {
      if tunnelCmd.Some? { return true; }
      if !binaryFound { return true; }
      StartLocked(launch, next, s);
      refused := false;
    }

    /** startLocked, as far as the launch of slipnet. */
    method StartLocked(launch: Launch, next: Pid, ghost s: State)
      requires At(s) && next == |s.procs|
      modifies this
      ensures At(LaunchTunnel(s, launch))
    {
      if sshEnabled {
        StartWithSsh(launch, next, s);
      } else if launch.Launched? {
        tunnelCmd := Some(next);
      }
    }

    /** The first half of startWithSSH: the port is recorded before the launch can fail. */
    method StartWithSsh(launch: Launch, next: Pid, ghost s: State)
      requires At(s) && sshEnabled && next == |s.procs|
      modifies this
      ensures At(LaunchTunnel(s, launch))
    {
      if launch.NoPort? { return; }
      tunnelPort := launch.port;
      if launch.Fails? { return; }
      tunnelCmd := Some(next);
    }

    /** The second half of startWithSSH, once slipnet runs. */
    method FinishStartWithSsh(chain: Chain, next: Pid, ghost s: State) returns (dialed: Option<int>)
      requires At(s) && Enabled(s, FinishStart(chain)) && next == |s.procs|
      modifies this
      ensures At(Apply(s, FinishStart(chain)))
      ensures dialed == if chain.SshLaunched? then Some(Apply(s, FinishStart(chain)).procs[next].port) else None
    {
      dialed := None;
      if chain.SshLaunched? {
        var port := StartSsh(next);
        dialed := Some(port);
      }
    }

    /** startSSH: the handle is overwritten whatever it was. */
    method StartSsh(next: Pid) returns (port: int)
      modifies this`sshCmd
      ensures sshCmd == Some(next) && port == tunnelPort
    {
      port := tunnelPort;
      sshCmd := Some(next);
    }

    /** First section of monitorTunnel. */
    method TunnelExited(p: Pid, ghost s: State) returns (goOn: bool)
      requires At(s) && Enabled(s, ReapTunnel(p))
      modifies this
      ensures At(Apply(s, ReapTunnel(p)))
      ensures goOn <==> Apply(s, ReapTunnel(p)).monitors[p] == Reaped
    {
      if tunnelCmd == Some(p) { tunnelCmd := None; }
      goOn := !stopped;
    }

    /** Second section of monitorTunnel. */
    method TunnelRestart(p: Pid, launch: Launch, next: Pid, ghost s: State)
      requires At(s) && Enabled(s, RestartTunnel(p, launch)) && next == |s.procs|
      modifies this
      ensures At(Apply(s, RestartTunnel(p, launch)))
    {
      if stopped || tunnelCmd.Some? { return; }
      StartLocked(launch, next, Move(s, p, Finished));
    }

    /** First section of monitorSSH. */
    method SshExited(p: Pid, ghost s: State) returns (goOn: bool)
      requires At(s) && Enabled(s, ReapSsh(p))
      modifies this
      ensures At(Apply(s, ReapSsh(p)))
      ensures goOn <==> Apply(s, ReapSsh(p)).monitors[p] == Sleeping
    {
      if sshCmd == Some(p) { sshCmd := None; }
      goOn := !stopped;
    }

    /** Second section of monitorSSH; `launched` is whether ssh could be launched. */
    method SshRestart(p: Pid, launched: bool, next: Pid, ghost s: State) returns (dialed: Option<int>)
      requires At(s) && Enabled(s, RestartSsh(p, launched)) && next == |s.procs|
      modifies this
      ensures At(Apply(s, RestartSsh(p, launched)))
      ensures |Apply(s, RestartSsh(p, launched)).procs| == if dialed.Some? then next + 1 else next
      ensures dialed.Some? ==> Apply(s, RestartSsh(p, launched)).procs[next].port == dialed.value
    {
      if stopped || sshCmd.Some? || tunnelCmd.None? { return None; }
      if !launched { return None; }
      var port := StartSsh(next);
      dialed := Some(port);
    }

    /** The locked section of Stop, with the two handles it captures. */
    method Stop(ghost s: State) returns (tunnel: Option<Pid>, ssh: Option<Pid>)
      requires At(s) && Enabled(s, StopSection)
      modifies this
      ensures At(Apply(s, StopSection)) && Apply(s, StopSection).stopper == EndingSsh(tunnel, ssh)
    {
      stopped := true;
      tunnel, ssh := tunnelCmd, sshCmd;
    }
  }
}

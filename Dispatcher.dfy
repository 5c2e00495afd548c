/** The signal dispatcher (`reloadProcess`): resolve the PID, and only if
    that succeeds deliver the signal. `syscall.Kill` is the `kill` field of
    the world; it answers whether delivery succeeded. */
module Dispatcher {
  import opened Wrappers
  import opened Locator
  import Configuration

  /** What the operating system looks like during one reload attempt. */
  datatype World = World(
    listing: Listing,
    readFile: string -> FileRead,
    kill: (int, int) -> bool)

  datatype ReloadError = Unresolved(cause: LocateError) | SignalFailed

  /** `Signalled` is the source's nil error, after a kill of `pid` with `signal`. */
  datatype ReloadOutcome = Signalled(pid: int, signal: int) | Failed(error: ReloadError)

  /** `reloadProcess`. */
  function ReloadProcess(process: string, pidFile: string, signal: int, w: World): (r: ReloadOutcome)
    ensures r.Signalled? <==>
      GetPid(process, pidFile, w.listing, w.readFile).err.None? &&
      w.kill(GetPid(process, pidFile, w.listing, w.readFile).pid, signal)
    ensures r.Signalled? ==> r == Signalled(GetPid(process, pidFile, w.listing, w.readFile).pid, signal)
    ensures GetPid(process, pidFile, w.listing, w.readFile).err.Some? ==>
      r == Failed(Unresolved(GetPid(process, pidFile, w.listing, w.readFile).err.value))
  {
    var resolved := GetPid(process, pidFile, w.listing, w.readFile);
    if resolved.err.Some? then
      Failed(Unresolved(resolved.err.value))
    else if !w.kill(resolved.pid, signal) then
      Failed(SignalFailed)
    else
      Signalled(resolved.pid, signal)
  }

  /** A failed resolution never reaches `kill`: the outcome is the same
      whatever `kill` would have answered. */
  lemma NoKillWithoutPid(process: string, pidFile: string, signal: int, w: World, otherKill: (int, int) -> bool)
    requires GetPid(process, pidFile, w.listing, w.readFile).err.Some?
    ensures ReloadProcess(process, pidFile, signal, w) == ReloadProcess(process, pidFile, signal, w.(kill := otherKill))
  {
  }

  /** A failed kill is an error, never a success. */
  lemma KillFailureReported(process: string, pidFile: string, signal: int, w: World)
    requires GetPid(process, pidFile, w.listing, w.readFile).err.None?
    requires !w.kill(GetPid(process, pidFile, w.listing, w.readFile).pid, signal)
    ensures ReloadProcess(process, pidFile, signal, w) == Failed(SignalFailed)
  {
  }

  /** A PID file holding "1234" and RELOAD_SIGNAL unset: the settings that
      validation produces send SIGHUP to PID 1234. */
  lemma PidFileEndToEnd(env: Configuration.Env, signalNum: string -> int, w: World)
    requires env.configDir != "" && env.processName == "" && env.processPidFile != ""
    requires env.reloadSignal == ""
    requires w.readFile(env.processPidFile) == Read("1234")
    requires w.kill(1234, Configuration.SIGHUP)
    ensures Configuration.Validate(env, signalNum).Accepted?
    ensures var t := Configuration.Validate(env, signalNum).settings.target;
      ReloadProcess(Configuration.ProcessName(t), Configuration.PidFile(t),
                    Configuration.Validate(env, signalNum).settings.signal, w)
        == Signalled(1234, Configuration.SIGHUP)
  {
    Configuration.SignalAndVerbose(env, signalNum);
    Configuration.AcceptedTarget(env, signalNum);
    PidFileHolding1234(env.processPidFile, w.readFile);
  }

  /** A process name that nothing in the table runs: no signal is sent. */
  lemma MissingProcessEndToEnd(name: string, signal: int, w: World, otherKill: (int, int) -> bool)
    requires w.listing.Listed?
    requires forall j :: 0 <= j < |w.listing.processes| ==> w.listing.processes[j].executable != name
    ensures ReloadProcess(name, "", signal, w) == Failed(Unresolved(NoMatch(name)))
    ensures ReloadProcess(name, "", signal, w.(kill := otherKill)) == Failed(Unresolved(NoMatch(name)))
  {
  }
}

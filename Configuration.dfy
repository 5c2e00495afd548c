/** Startup configuration: the five environment variables are validated once
    and turned into an immutable settings value, or startup is fatal.
    `unix.SignalNum` is the parameter `signalNum`: it maps a signal name to its
    number, and to 0 when the name is unknown. */
module Configuration {

  /** The number of SIGHUP, the default reload signal. */
  const SIGHUP: int := 1

  /** The raw environment strings (an unset variable reads as ""). */
  datatype Env = Env(
    configDir: string,
    processName: string,
    processPidFile: string,
    verbose: string,
    reloadSignal: string)

  /** Which process receives the reload signal: exactly one of the two. */
  datatype ReloadTarget = ByName(name: string) | ByPidFile(path: string)

  datatype Settings = Settings(
    configDir: string,
    target: ReloadTarget,
    verbose: bool,
    signal: int)

  /** The reasons startup stops (each is a `log.Fatal` in the source). */
  datatype ConfigError =
    | EmptyConfigDir
    | TargetsExclusive
    | NoTarget
    | UnknownSignal(name: string)

  datatype Validation = Accepted(settings: Settings) | Rejected(error: ConfigError)

  /** The process-name argument that the reload path receives: the name
      for a by-name target and "" otherwise. */
  function ProcessName(t: ReloadTarget): string {
    if t.ByName? then t.name else ""
  }

  /** The PID-file argument that the reload path receives. */
  function PidFile(t: ReloadTarget): string {
    if t.ByPidFile? then t.path else ""
  }

  /** Validates the environment in the order the source does: the config dir,
      then the two target variables, then the signal. */
  function Validate(env: Env, signalNum: string -> int): (r: Validation)
    ensures r.Accepted? <==>
      && env.configDir != ""
      && (env.processName == "" <==> env.processPidFile != "")
      && (env.reloadSignal == "" || signalNum(env.reloadSignal) != 0)
    ensures r.Accepted? ==> r.settings.configDir == env.configDir && r.settings.signal != 0
  {
    if env.configDir == "" then Rejected(EmptyConfigDir)
    else if env.processName != "" && env.processPidFile != "" then Rejected(TargetsExclusive)
    else if env.processName == "" && env.processPidFile == "" then Rejected(NoTarget)
    else
      var target := if env.processName != "" then ByName(env.processName) else ByPidFile(env.processPidFile);
      var verbose := env.verbose == "true";
      if env.reloadSignal == "" then
        Accepted(Settings(env.configDir, target, verbose, SIGHUP))
      else if signalNum(env.reloadSignal) == 0 then
        Rejected(UnknownSignal(env.reloadSignal))
      else
        Accepted(Settings(env.configDir, target, verbose, signalNum(env.reloadSignal)))
  }

  /** An empty CONFIG_DIR is reported before anything else is looked at. */
  lemma EmptyConfigDirFirst(env: Env, signalNum: string -> int)
    requires env.configDir == ""
    ensures Validate(env, signalNum) == Rejected(EmptyConfigDir)
  {
  }

  /** Setting both target variables, or neither, is fatal. */
  lemma TargetMustBeUnique(env: Env, signalNum: string -> int)
    requires env.configDir != ""
    ensures env.processName != "" && env.processPidFile != "" ==>
      Validate(env, signalNum) == Rejected(TargetsExclusive)
    ensures env.processName == "" && env.processPidFile == "" ==>
      Validate(env, signalNum) == Rejected(NoTarget)
  {
  }

  /** An accepted configuration hands the reload path exactly the two
      environment strings, packed as the one non-empty variant. */
  lemma AcceptedTarget(env: Env, signalNum: string -> int)
    requires Validate(env, signalNum).Accepted?
    ensures var t := Validate(env, signalNum).settings.target;
      && ProcessName(t) == env.processName
      && PidFile(t) == env.processPidFile
      && (t.ByName? ==> t.name != "")
      && (t.ByPidFile? ==> t.path != "")
  {
  }

  /** An empty RELOAD_SIGNAL means SIGHUP; otherwise the number of the name,
      and an unknown name (number 0) is fatal. Verbose is on exactly for "true". */
  lemma SignalAndVerbose(env: Env, signalNum: string -> int)
    requires env.configDir != "" && (env.processName == "" <==> env.processPidFile != "")
    ensures env.reloadSignal == "" ==>
      Validate(env, signalNum).Accepted? && Validate(env, signalNum).settings.signal == SIGHUP
    ensures env.reloadSignal != "" && signalNum(env.reloadSignal) == 0 ==>
      Validate(env, signalNum) == Rejected(UnknownSignal(env.reloadSignal))
    ensures env.reloadSignal != "" && signalNum(env.reloadSignal) != 0 ==>
      Validate(env, signalNum).Accepted? && Validate(env, signalNum).settings.signal == signalNum(env.reloadSignal)
    ensures Validate(env, signalNum).Accepted? ==>
      (Validate(env, signalNum).settings.verbose <==> env.verbose == "true")
  {
  }
}

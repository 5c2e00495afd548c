/** The watch set manager and the startup sequence of `main`: validate the
    environment, create the watcher, split CONFIG_DIR on commas and add each
    directory in order, stopping at the first failure (a `log.Fatal`).
    Whether fsnotify accepts a directory is the input `accepts`. */
module WatchSet {
  import opened Text
  import opened Configuration

  /** The directories registered with the change-notification source, in
      the order they were added. */
  class Watcher {
    var watched: seq<string>

    constructor ()
      ensures watched == []
    {
      watched := [];
    }

    /** `watcher.Add`: on success the directory joins the watch list. */
    method Add(dir: string, accepts: string -> bool) returns (ok: bool)
      modifies this
      ensures ok == accepts(dir)
      ensures watched == if ok then old(watched) + [dir] else old(watched)
    {
      ok := accepts(dir);
      if ok {
        watched := watched + [dir];
      }
    }
  }

  /** Position of the first directory that cannot be added (or the length). */
  function FirstRejected(dirs: seq<string>, accepts: string -> bool): (k: nat)
    ensures k <= |dirs|
    ensures forall j :: 0 <= j < k ==> accepts(dirs[j])
    ensures k < |dirs| ==> !accepts(dirs[k])
  {
    if dirs == [] || !accepts(dirs[0]) then 0 else 1 + FirstRejected(dirs[1..], accepts)
  }

  /** The registration loop: every directory before the first failing one
      has been added, in order, and nothing after it is tried. */
  method RegisterAll(w: Watcher, dirs: seq<string>, accepts: string -> bool) returns (ok: bool)
    modifies w
    ensures ok <==> FirstRejected(dirs, accepts) == |dirs|
    ensures w.watched == old(w.watched) + dirs[..FirstRejected(dirs, accepts)]
  {
    var i := 0;
    while i < |dirs|
      invariant 0 <= i <= |dirs|
      invariant forall j :: 0 <= j < i ==> accepts(dirs[j])
      invariant w.watched == old(w.watched) + dirs[..i]
    {
      var added := w.Add(dirs[i], accepts);
      if !added {
        FirstRejectedAt(dirs, accepts, i);
        return false;
      }
      assert dirs[..i + 1] == dirs[..i] + [dirs[i]];
      i := i + 1;
    }
    FirstRejectedAt(dirs, accepts, i);
    assert dirs[..i] == dirs;
    return true;
  }

  lemma FirstRejectedAt(dirs: seq<string>, accepts: string -> bool, i: nat)
    requires i <= |dirs|
    requires forall j :: 0 <= j < i ==> accepts(dirs[j])
    requires i < |dirs| ==> !accepts(dirs[i])
    ensures FirstRejected(dirs, accepts) == i
  {
  }

  /** The pieces of CONFIG_DIR are the comma-free runs between commas, one
      more than the commas, and joined with commas they give CONFIG_DIR back. */
  lemma ConfigDirPieces(configDir: string)
    ensures |Split(configDir, ',')| == Count(configDir, ',') + 1
    ensures forall k :: 0 <= k < |Split(configDir, ',')| ==> ',' !in Split(configDir, ',')[k]
    ensures Join(Split(configDir, ','), ',') == configDir
  {
    JoinSplit(configDir, ',');
  }

  /** How startup ends: a fatal configuration error, a fatal watch
      error for one directory, or a running sidecar. */
  datatype Startup = ConfigFailed(error: ConfigError) | WatchFailed(dir: string) | Running(settings: Settings)

  /** `main` up to the point where it blocks. A configuration error stops
      startup before any watcher exists; otherwise the pieces of CONFIG_DIR
      are added in order up to the first that fails. */
  method Start(env: Env, signalNum: string -> int, accepts: string -> bool)
    returns (r: Startup, w: Watcher?)
    ensures Validate(env, signalNum).Rejected? ==>
      r == ConfigFailed(Validate(env, signalNum).error) && w == null
    ensures Validate(env, signalNum).Accepted? ==>
      var dirs := Split(env.configDir, ',');
      var k := FirstRejected(dirs, accepts);
      && w != null && fresh(w)
      && w.watched == dirs[..k]
      && r == (if k < |dirs| then WatchFailed(dirs[k]) else Running(Validate(env, signalNum).settings))
  {
    match Validate(env, signalNum) {
      case Rejected(e) =>
        return ConfigFailed(e), null;
      case Accepted(settings) =>
        var watcher := new Watcher();
        var dirs := Split(settings.configDir, ',');
        var ok := RegisterAll(watcher, dirs, accepts);
        if ok {
          r := Running(settings);
        } else {
          r := WatchFailed(dirs[FirstRejected(dirs, accepts)]);
        }
        w := watcher;
    }
  }
}

/**
 Whether a shell prompt needs a full `hook-env` run (src/hook_env.rs): a fast check before the config is
 loaded, a slow one after, and the flag by which the fast one makes sure that a run it asks for is made.

 One shell is modelled. A snapshot is what the file system says during one prompt.
 */
module PromptHook {
  import opened Wrappers

  type Path = string

  /** The existing paths, with their modification times in nanoseconds where those can be read. */
  datatype Snapshot = Snapshot(
    files: map<Path, Option<int>>,
    data: Path,
    trusted: Path,
    ignored: Path,
    searchDirs: set<Path>)

  /** What the previous full run stored in the shell's environment. */
  datatype Session = Session(
    dir: Option<Path>,
    loadedConfigs: set<Path>,
    teraFiles: set<Path>,
    watchFiles: set<Path>,
    envVarHash: string,
    latestUpdate: nat)

  /** One call of the hook. `chpwdOnly` and `withinTtl` are the two shortcuts' settings in effect. */
  datatype Call = Call(
    isHookEnv: bool,
    loggingFlag: bool,
    force: bool,
    precmd: bool,
    precmdRan: bool,
    untrustedMarker: bool,
    updateDue: bool,
    cwd: Option<Path>,
    envVarHash: string,
    chpwdOnly: bool,
    withinTtl: bool)

  /** What loading the config says is to be watched and stored: `early` is what is known before the
      environment is computed, `watched` what is known after. Each is `None` if a glob fails. */
  datatype Config = Config(
    configFiles: set<Path>,
    included: set<Path>,
    teraFiles: set<Path>,
    early: Option<set<Path>>,
    watched: Option<set<Path>>)

  /** Milliseconds since the epoch, truncated, and 0 before it. */
  function Millis(nanos: int): nat {
    if nanos < 0 then 0 else nanos / 1_000_000
  }

  predicate Newer(fs: Snapshot, p: Path, latest: nat) {
    p in fs.files && fs.files[p].Some? && Millis(fs.files[p].value) > latest
  }

  /** The path is there and was not modified after the session. */
  predicate Fresh(fs: Snapshot, p: Path, latest: nat) {
    p in fs.files && !Newer(fs, p, latest)
  }

  predicate AllFresh(fs: Snapshot, paths: set<Path>, latest: nat) {
    forall p :: p in paths ==> Fresh(fs, p, latest)
  }

  predicate DirChanged(s: Session, c: Call) {
    c.cwd.Some? && s.dir != c.cwd
  }

  /** The fast check's conditions that need no file system. */
  predicate FastGuards(s: Session, c: Call) {
    && c.isHookEnv && !c.loggingFlag && s.dir.Some? && !c.force && !c.untrustedMarker && !c.updateDue
    && (c.precmd ==> c.precmdRan)
    && !DirChanged(s, c) && c.envVarHash == s.envVarHash
  }

  predicate Shortcut(c: Call) {
    (c.chpwdOnly && c.precmd) || c.withinTtl
  }

  /** Nothing the fast check looks at is newer than the session or gone. */
  predicate Unmodified(s: Session, fs: Snapshot) {
    && AllFresh(fs, s.loadedConfigs, s.latestUpdate)
    && AllFresh(fs, s.teraFiles, s.latestUpdate)
    && AllFresh(fs, s.watchFiles, s.latestUpdate)
    && (forall p :: p in {fs.trusted, fs.ignored} && p !in s.watchFiles ==> !Newer(fs, p, s.latestUpdate))
    && Fresh(fs, fs.data, s.latestUpdate)
    && (forall p :: p in fs.searchDirs ==> !Newer(fs, p, s.latestUpdate))
  }

  predicate FastExit(s: Session, c: Call, fs: Snapshot) {
    FastGuards(s, c) && (Shortcut(c) || Unmodified(s, fs))
  }

  /** The fast check asked for the run it did not skip. */
  predicate Forces(s: Session, c: Call, fs: Snapshot) {
    FastGuards(s, c) && !Shortcut(c) && !Unmodified(s, fs)
  }

  /** The paths `get_watch_files` resolves: the three state directories that exist, and the patterns. */
  function WatchSet(fs: Snapshot, patterns: set<Path>): set<Path> {
    (set p | p in {fs.data, fs.trusted, fs.ignored} && p in fs.files) + patterns
  }

  predicate SlowExit(s: Session, c: Call, fs: Snapshot, patterns: Option<set<Path>>, forced: bool) {
    && (c.precmd ==> c.precmdRan) && !c.untrustedMarker && !DirChanged(s, c)
    && patterns.Some?
    && (forall p :: p in s.loadedConfigs ==> p in fs.files)
    && AllFresh(fs, WatchSet(fs, patterns.value), s.latestUpdate)
    && c.envVarHash == s.envVarHash
    && !forced
  }

  // ----- the two checks, in one process -----

  class HookProcess {
    const session: Session
    /** `FAST_PATH_FORCED_FULL_RUN` */
    var forcedFullRun: bool
    /** The files reported to the `watch_files` hooks. */
    var modified: set<Path>
    var hooksScheduled: bool

    constructor (session: Session)
      ensures this.session == session && !forcedFullRun && modified == {} && !hooksScheduled
    {
      this.session := session;
      forcedFullRun, modified, hooksScheduled := false, {}, false;
    }

    method ForceFullRun() returns (exit: bool)
      modifies this`forcedFullRun
      ensures forcedFullRun && !exit
    {
      forcedFullRun := true;
      exit := false;
    }

    /** Whether some path of the set is newer than the session or gone. */
    method AnyStale(fs: Snapshot, paths: set<Path>) returns (stale: bool)
      ensures stale <==> !AllFresh(fs, paths, session.latestUpdate)
    {
      var todo := paths;
      while todo != {}
        invariant todo <= paths
        invariant AllFresh(fs, paths - todo, session.latestUpdate)
        decreases todo
      {
        var p :| p in todo;
        if p in fs.files {
          if fs.files[p].Some? && Millis(fs.files[p].value) > session.latestUpdate {
            return true;
          }
        } else {
          return true;
        }
        todo := todo - {p};
      }
      return false;
    }

    method AnyNewer(fs: Snapshot, paths: set<Path>) returns (newer: bool)
      ensures newer <==> exists p :: p in paths && Newer(fs, p, session.latestUpdate)
    {
      var todo := paths;
      while todo != {}
        invariant todo <= paths
        invariant forall p :: p in paths - todo ==> !Newer(fs, p, session.latestUpdate)
        decreases todo
      {
        var p :| p in todo;
        if p in fs.files && fs.files[p].Some? && Millis(fs.files[p].value) > session.latestUpdate {
          return true;
        }
        todo := todo - {p};
      }
      return false;
    }

    method CheckExitEarlyFast(c: Call, fs: Snapshot) returns (exit: bool)
      modifies this`forcedFullRun
      ensures exit <==> FastExit(session, c, fs)
      ensures forcedFullRun <==> old(forcedFullRun) || Forces(session, c, fs)
    {
      if !c.isHookEnv || c.loggingFlag || session.dir.None? || c.force || c.untrustedMarker || c.updateDue {
        return false;
      }
      if c.precmd && !c.precmdRan {
        return false;
      }
      if DirChanged(session, c) || c.envVarHash != session.envVarHash {
        return false;
      }
      if c.chpwdOnly && c.precmd {
        return true;
      }
      if c.withinTtl {
        return true;
      }
      var stale := AnyStale(fs, session.loadedConfigs);
      if stale {
        exit := ForceFullRun();
        return;
      }
      stale := AnyStale(fs, session.teraFiles);
      if stale {
        exit := ForceFullRun();
        return;
      }
      stale := AnyStale(fs, session.watchFiles);
      if stale {
        exit := ForceFullRun();
        return;
      }
      // the trust directories, unless they were among the watched files
      stale := AnyNewer(fs, {fs.trusted, fs.ignored} - session.watchFiles);
      if stale {
        exit := ForceFullRun();
        return;
      }
      if fs.data !in fs.files {
        exit := ForceFullRun();
        return;
      }
      if Newer(fs, fs.data, session.latestUpdate) {
        exit := ForceFullRun();
        return;
      }
      stale := AnyNewer(fs, fs.searchDirs);
      if stale {
        exit := ForceFullRun();
        return;
      }
      return true;
    }

    /** Records every modified or deleted file before it answers. */
    method HaveFilesBeenModified(fs: Snapshot, watched: set<Path>) returns (changed: bool)
      modifies this`modified
      ensures changed <==> !(forall p :: p in session.loadedConfigs ==> p in fs.files)
                           || !AllFresh(fs, watched, session.latestUpdate)
      ensures modified == old(modified) +
        if forall p :: p in session.loadedConfigs ==> p in fs.files
        then set p | p in watched && !Fresh(fs, p, session.latestUpdate) else {}
    {
      if exists p :: p in session.loadedConfigs && p !in fs.files {
        return true;
      }
      changed := false;
      var todo := watched;
      while todo != {}
        invariant todo <= watched
        invariant changed <==> !AllFresh(fs, watched - todo, session.latestUpdate)
        invariant modified == old(modified) + set p | p in watched - todo && !Fresh(fs, p, session.latestUpdate)
        decreases todo
      {
        var p :| p in todo;
        assert watched - (todo - {p}) == (watched - todo) + {p};
        todo := todo - {p};
        if p in fs.files {
          if Newer(fs, p, session.latestUpdate) {
            changed := true;
            modified := modified + {p};
          }
        } else {
          changed := true;
          modified := modified + {p};
        }
      }
    }

    method ShouldExitEarly(c: Call, fs: Snapshot, patterns: Option<set<Path>>) returns (exit: bool)
      modifies this`modified, this`hooksScheduled
      ensures exit <==> SlowExit(session, c, fs, patterns, forcedFullRun)
      ensures hooksScheduled ==
        (old(hooksScheduled) || ((c.precmd ==> c.precmdRan) && !c.untrustedMarker && DirChanged(session, c)))
      ensures exit ==> modified == old(modified)
    {
      if c.precmd && !c.precmdRan {
        return false;
      }
      if c.untrustedMarker {
        return false;
      }
      if DirChanged(session, c) {
        hooksScheduled := true;
        return false;
      }
      if patterns.None? {
        return false;
      }
      var changed := HaveFilesBeenModified(fs, WatchSet(fs, patterns.value));
      if changed {
        return false;
      }
      if c.envVarHash != session.envVarHash {
        return false;
      }
      if forcedFullRun {
        return false;
      }
      return true;
    }
  }

  // ----- the full run's session -----

  /** Every path whose modification time `build_session` takes into account. */
  function Covered(config: Config, fs: Snapshot): set<Path>
    requires config.watched.Some?
  {
    WatchSet(fs, config.watched.value) + config.teraFiles + {fs.data} + fs.searchDirs + config.included
  }

  /** `latest` is the latest modification time of the covered paths, in milliseconds, or 0. */
  ghost predicate IsLatest(config: Config, fs: Snapshot, latest: nat)
    requires config.watched.Some?
  {
    && (forall p :: p in Covered(config, fs) ==> !Newer(fs, p, latest))
    && (latest == 0 || exists p :: p in Covered(config, fs) && p in fs.files && fs.files[p].Some?
                                   && Millis(fs.files[p].value) == latest)
  }

  ghost predicate IsBuilt(config: Config, c: Call, fs: Snapshot, s: Session) {
    && config.watched.Some?
    && s.dir == c.cwd && s.envVarHash == c.envVarHash
    && s.loadedConfigs == config.configFiles + config.included
    && s.teraFiles == config.teraFiles
    && s.watchFiles == WatchSet(fs, config.watched.value)
    && IsLatest(config, fs, s.latestUpdate)
  }

  method MaxModified(fs: Snapshot, paths: set<Path>, start: int) returns (latest: int)
    requires start >= 0
    ensures latest >= start
    ensures forall p :: p in paths && p in fs.files && fs.files[p].Some? ==> fs.files[p].value <= latest
    ensures latest == start || exists p :: p in paths && p in fs.files && fs.files[p] == Some(latest)
  {
    latest := start;
    var todo := paths;
    while todo != {}
      invariant todo <= paths && latest >= start
      invariant forall p :: p in paths - todo && p in fs.files && fs.files[p].Some? ==> fs.files[p].value <= latest
      invariant latest == start || exists p :: p in paths && p in fs.files && fs.files[p] == Some(latest)
      decreases todo
    {
      var p :| p in todo;
      todo := todo - {p};
      if p in fs.files && fs.files[p].Some? && fs.files[p].value > latest {
        latest := fs.files[p].value;
      }
    }
  }

  method BuildSession(config: Config, c: Call, fs: Snapshot) returns (session: Result<Session>)
    ensures session.Err? <==> config.watched.None?
    ensures session.Ok? ==> IsBuilt(config, c, fs, session.value)
  {
    if config.watched.None? {
      return Err;
    }
    var watched := WatchSet(fs, config.watched.value);
    var latest := MaxModified(fs, watched, 0);
    latest := MaxModified(fs, config.teraFiles, latest);
    latest := MaxModified(fs, {fs.data}, latest);
    latest := MaxModified(fs, fs.searchDirs, latest);
    latest := MaxModified(fs, config.included, latest);
    session := Ok(Session(c.cwd, config.configFiles + config.included, config.teraFiles, watched,
      c.envVarHash, Millis(latest)));
  }

  lemma OneLatest(config: Config, fs: Snapshot, m: nat, n: nat)
    requires config.watched.Some? && IsLatest(config, fs, m) && IsLatest(config, fs, n)
    ensures m == n
  {
  }

  // ----- the fast check refines the slow one -----

  /** Not modified after the last nanosecond of the session's millisecond. */
  predicate UntouchedSince(fs: Snapshot, p: Path, latest: nat) {
    p in fs.files && fs.files[p].Some? ==> fs.files[p].value < (latest + 1) * 1_000_000
  }

  lemma NotNewer(fs: Snapshot, p: Path, latest: nat)
    ensures Newer(fs, p, latest) <==> !UntouchedSince(fs, p, latest)
    ensures Fresh(fs, p, latest) <==> p in fs.files && UntouchedSince(fs, p, latest)
  {
  }

  /** A prompt is skipped before the config is loaded exactly if it is an ordinary one of `hook-env`, in the
      directory and under the variables of the session, and either a shortcut applies or every path the session
      stored is there and nothing that is looked at was modified since. */
  lemma FastExitMeans(s: Session, c: Call, fs: Snapshot)
    ensures FastExit(s, c, fs) <==>
      && c.isHookEnv && !c.loggingFlag && !c.force && !c.updateDue && !c.untrustedMarker && (!c.precmd || c.precmdRan)
      && s.dir.Some? && (c.cwd.None? || c.cwd == s.dir) && c.envVarHash == s.envVarHash
      && (|| c.withinTtl || (c.chpwdOnly && c.precmd)
          || (&& (forall p :: p in s.loadedConfigs + s.teraFiles + s.watchFiles + {fs.data} ==> p in fs.files)
              && forall p :: p in s.loadedConfigs + s.teraFiles + s.watchFiles + {fs.data, fs.trusted, fs.ignored} + fs.searchDirs
                   ==> UntouchedSince(fs, p, s.latestUpdate)))
  {
    forall p
      ensures Newer(fs, p, s.latestUpdate) <==> !UntouchedSince(fs, p, s.latestUpdate)
      ensures Fresh(fs, p, s.latestUpdate) <==> p in fs.files && UntouchedSince(fs, p, s.latestUpdate)
    {
      NotNewer(fs, p, s.latestUpdate);
    }
  }

  /** A prompt is skipped after it exactly if it is in the directory and under the variables of the session, no
      run is forced, the loaded configs and all watched paths are there, and none that is watched, nor a state
      directory that is there, was modified since. */
  lemma SlowExitMeans(s: Session, c: Call, fs: Snapshot, patterns: set<Path>, forced: bool)
    ensures SlowExit(s, c, fs, None, forced) == false
    ensures SlowExit(s, c, fs, Some(patterns), forced) <==>
      && !forced && !c.untrustedMarker && (!c.precmd || c.precmdRan)
      && (c.cwd.None? || c.cwd == s.dir) && c.envVarHash == s.envVarHash
      && (forall p :: p in s.loadedConfigs + patterns ==> p in fs.files)
      && forall p :: p in patterns + {fs.data, fs.trusted, fs.ignored} ==> UntouchedSince(fs, p, s.latestUpdate)
  {
    forall p
      ensures Fresh(fs, p, s.latestUpdate) <==> p in fs.files && UntouchedSince(fs, p, s.latestUpdate)
    {
      NotNewer(fs, p, s.latestUpdate);
    }
    assert forall p :: p in WatchSet(fs, patterns) <==>
      p in patterns || (p in {fs.data, fs.trusted, fs.ignored} && p in fs.files);
  }

  /** Without the shortcuts, where the fast check exits the slow one would too, on any watch set whose
      files are fresh, such as the stored one. */
  lemma FastRefinesSlow(s: Session, c: Call, fs: Snapshot, patterns: set<Path>)
    requires FastExit(s, c, fs) && !Shortcut(c)
    ensures SlowExit(s, c, fs, Some(patterns), false) <==> AllFresh(fs, patterns, s.latestUpdate)
    ensures SlowExit(s, c, fs, Some(s.watchFiles), false)
  {
    assert WatchSet(fs, s.watchFiles) == s.watchFiles + set p | p in {fs.data, fs.trusted, fs.ignored} && p in fs.files;
    assert forall p :: p in patterns ==> p in WatchSet(fs, patterns);
    assert forall p :: p in {fs.data, fs.trusted, fs.ignored} && p in fs.files ==> Fresh(fs, p, s.latestUpdate);
  }

  /** The converse fails, which is what the flag is for: a newer search directory is seen by the fast
      check alone, and without the flag the session would never catch up with it. */
  lemma SlowAloneWouldSwallow(s: Session, c: Call, fs: Snapshot, dir: Path)
    requires FastExit(s, c, fs) && !Shortcut(c)
    requires dir !in s.watchFiles + s.loadedConfigs + s.teraFiles + {fs.data, fs.trusted, fs.ignored}
    ensures
      var edited := fs.(files := fs.files[dir := Some((s.latestUpdate + 1) * 1_000_000)], searchDirs := fs.searchDirs + {dir});
      && Forces(s, c, edited)
      && SlowExit(s, c, edited, Some(s.watchFiles), false)
      && !SlowExit(s, c, edited, Some(s.watchFiles), true)
  {
    var edited := fs.(files := fs.files[dir := Some((s.latestUpdate + 1) * 1_000_000)], searchDirs := fs.searchDirs + {dir});
    assert Millis((s.latestUpdate + 1) * 1_000_000) == s.latestUpdate + 1;
    assert Newer(edited, dir, s.latestUpdate);
    assert forall p :: p != dir ==> (Fresh(edited, p, s.latestUpdate) <==> Fresh(fs, p, s.latestUpdate));
    FastRefinesSlow(s, c, fs, s.watchFiles);
    assert WatchSet(edited, s.watchFiles) == WatchSet(fs, s.watchFiles);
  }

  // ----- prompts one after another -----

  /** One prompt: which of the three outcomes, and the session the next prompt sees. */
  ghost predicate Prompt(s: Session, c: Call, fs: Snapshot, config: Config, next: Session) {
    if FastExit(s, c, fs) then next == s
    else if !c.force && SlowExit(s, c, fs, SlowPatterns(config, s), Forces(s, c, fs)) then next == s
    else IsBuilt(config, c, fs, next)
  }

  /** The slow check also watches what the previous session watched. */
  function SlowPatterns(config: Config, s: Session): Option<set<Path>> {
    if config.early.Some? then Some(config.early.value + s.watchFiles) else None
  }

  /** An ordinary prompt in a directory, with the shortcuts off. */
  predicate Plain(c: Call) {
    && c.isHookEnv && !c.loggingFlag && !c.force && !c.untrustedMarker && !c.updateDue
    && (c.precmd ==> c.precmdRan) && c.cwd.Some? && !Shortcut(c)
  }

  /** A run the fast check does not skip is made: the slow check never swallows it. */
  lemma NeverSwallowed(s: Session, c: Call, fs: Snapshot, patterns: Option<set<Path>>)
    requires Plain(c) && !FastExit(s, c, fs)
    ensures !SlowExit(s, c, fs, patterns, Forces(s, c, fs))
  {
  }

  /** What a session built now needs so that it is found fresh: everything stored exists, and every
      loaded config is either covered or older than what is. */
  ghost predicate Settles(config: Config, fs: Snapshot)
    requires config.watched.Some?
  {
    && fs.data in fs.files
    && (forall p :: p in config.configFiles + config.included + config.teraFiles + config.watched.value ==> p in fs.files)
    && (forall p, latest :: p in config.configFiles && IsLatest(config, fs, latest) ==> !Newer(fs, p, latest))
  }

  lemma WatchedConfigsSettle(config: Config, fs: Snapshot)
    requires config.watched.Some? && config.configFiles <= config.watched.value
    requires fs.data in fs.files
    requires forall p :: p in config.included + config.teraFiles + config.watched.value ==> p in fs.files
    ensures Settles(config, fs)
  {
  }

  /** On an unchanged file system the prompt after a full run exits on the fast path exactly when the
      session settles, for all that times are truncated to milliseconds. */
  lemma StableAfterFullRun(config: Config, c: Call, fs: Snapshot, s: Session)
    requires Plain(c) && IsBuilt(config, c, fs, s)
    ensures FastExit(s, c, fs) <==> Settles(config, fs)
  {
    if Settles(config, fs) {
      forall p | p in s.loadedConfigs + s.teraFiles + s.watchFiles
        ensures Fresh(fs, p, s.latestUpdate)
      {
        assert p in config.configFiles || p in Covered(config, fs);
      }
      assert fs.data in Covered(config, fs);
      assert forall p :: p in {fs.trusted, fs.ignored} && p !in s.watchFiles ==> p !in fs.files;
    }
    if FastExit(s, c, fs) {
      forall p, latest | p in config.configFiles && IsLatest(config, fs, latest)
        ensures !Newer(fs, p, latest)
      {
        OneLatest(config, fs, latest, s.latestUpdate);
      }
      assert forall p :: p in config.watched.value ==> p in s.watchFiles;
    }
  }

  /** Any number of prompts on an unchanged file system: the first may run in full, and from the second
      on either none does or, where the session does not settle, every one does. */
  lemma {:induction false} NoLivelock(sessions: seq<Session>, c: Call, fs: Snapshot, config: Config, k: nat)
    requires Plain(c) && config.watched.Some?
    requires forall i :: 0 <= i < |sessions| - 1 ==> Prompt(sessions[i], c, fs, config, sessions[i + 1])
    requires 1 <= k < |sessions|
    ensures FastExit(sessions[k], c, fs) <==> FastExit(sessions[0], c, fs) || Settles(config, fs)
    ensures FastExit(sessions[k], c, fs) ==> sessions[k] == sessions[1]
  {
    var s := sessions[k - 1];
    assert Prompt(s, c, fs, config, sessions[k]);
    if k > 1 {
      NoLivelock(sessions, c, fs, config, k - 1);
    }
    if !FastExit(s, c, fs) {
      NeverSwallowed(s, c, fs, SlowPatterns(config, s));
      StableAfterFullRun(config, c, fs, sessions[k]);
    }
  }
}

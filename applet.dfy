/** The WallpaperChanger applet object: its settings fields, the one
    pending main-loop timeout it keeps, and the command lines it spawns. */
module WallpaperApplet {
  import opened Wrappers
  import opened Strings
  import opened Mainloop

  const PathKey := "wallpaper_path"
  const DelayKey := "wallpaper_delay"
  const TimerKey := "wallpaper_timer"

  /** Re-arm period when `wallpaper_timer` is unset (0). */
  const DefaultInterval: nat := 3600
  const FileScheme := "file://"
  const ScriptPath := "/scripts/wallpaper_script.py"
  const PicturesDir := "/Pictures/wallpapers"

  /** The period `_setTimeout` receives from `_start_applet`:
      `wallpaper_timer || 3600`. */
  function ArmedSeconds(timer: nat): (s: nat)
    ensures 0 < s
    ensures timer != 0 ==> s == timer
    ensures timer == 0 ==> s == DefaultInterval
  {
    if timer != 0 then timer else DefaultInterval
  }

  /** The path `property_changed` keeps after a change of `wallpaper_path`:
      a leading `file://` is cut off once. */
  function StripFileScheme(path: string): (r: string)
    ensures FileScheme <= path ==> FileScheme + r == path
    ensures !(FileScheme <= path) ==> r == path
    ensures |r| <= |path|
  {
    if FileScheme <= path then path[|FileScheme|..] else path
  }

  /** Stripping undoes exactly one added scheme, even when what follows
      starts with another one. */
  lemma StripAddedScheme(p: string)
    ensures StripFileScheme(FileScheme + p) == p
  {
  }

  /** An absolute path is left as it is. */
  lemma StripKeepsAbsolutePath(p: string)
    requires p != [] && p[0] == '/'
    ensures StripFileScheme(p) == p
  {
  }

  /** The directory `initialize_wallpaper_dir` fills in. */
  function DefaultWallpaperDir(homeDir: string): (dir: string)
    ensures dir != ""
    ensures homeDir <= dir && dir[|homeDir|..] == PicturesDir
  {
    homeDir + PicturesDir
  }

  /** The command line `run_wallpaper_script` spawns. */
  function ScriptCommand(appletDir: string, path: string, delay: nat): (c: string)
    ensures appletDir + ScriptPath + " " <= c
    ensures |c| == |appletDir| + |ScriptPath| + |path| + |DecimalText(delay)| + 2
    ensures c[|c| - |DecimalText(delay)| - 1..] == " " + DecimalText(delay)
  {
    appletDir + ScriptPath + " " + path + " " + DecimalText(delay)
  }

  /** The condition `run_wallpaper_script` tests before spawning. */
  predicate SpawnGate(pathExists: bool, path: string, delay: nat, timer: nat) {
    pathExists && path != "" && delay != 0 && timer != 0
  }

  /** The spawned process receives three arguments: the script, the
      wallpaper directory and the delay, which reads back as the setting.
      A directory containing a blank or a quote would not survive the
      split; the applet does not quote it. */
  lemma {:induction false} CommandArguments(appletDir: string, path: string, delay: nat)
    requires ShellPlain(appletDir) && ShellPlain(path) && path != ""
    ensures Words(ScriptCommand(appletDir, path, delay))
         == [appletDir + ScriptPath, path, DecimalText(delay)]
    ensures DecimalValue(Words(ScriptCommand(appletDir, path, delay))[2]) == delay
  {
    var script := appletDir + ScriptPath;
    assert ShellPlain(ScriptPath) by {
      assert ScriptPath == ['/', 's', 'c', 'r', 'i', 'p', 't', 's', '/', 'w', 'a', 'l', 'l', 'p', 'a', 'p',
                            'e', 'r', '_', 's', 'c', 'r', 'i', 'p', 't', '.', 'p', 'y'];
    }
    assert ShellPlain(script) by {
      forall i | 0 <= i < |script| ensures IsPlainChar(script[i]) {
        if i < |appletDir| {
          assert script[i] == appletDir[i];
        } else {
          assert script[i] == ScriptPath[i - |appletDir|];
        }
      }
    }
    var text := DecimalText(delay);
    assert ShellPlain(text) by {
      forall i | 0 <= i < |text| ensures IsPlainChar(text[i]) {
        assert IsDigit(text[i]);
      }
    }
    WordsOfThree(script, path, text);
    DecimalRoundTrip(delay);
  }

  /** What one call of `run_wallpaper_script` spawns: the command, when
      the directory exists and path, delay and timer are all truthy, and
      nothing otherwise. */
  function Spawns(appletDir: string, existing: set<string>, path: string, delay: nat, timer: nat)
    : (log: seq<string>)
    ensures log != [] <==> path in existing && path != "" && delay != 0 && timer != 0
    ensures log != [] ==> log == [ScriptCommand(appletDir, path, delay)]
  {
    if SpawnGate(path in existing, path, delay, timer)
    then [ScriptCommand(appletDir, path, delay)]
    else []
  }

  /** The applet. `existing` parameters stand for the file system that
      `Gio.File.query_exists` consults, as the set of paths that exist. */
  class WallpaperChanger {
    /** the applet's install directory (`AppletDir`) */
    const appletDir: string
    /** `GLib.get_home_dir()` */
    const homeDir: string
    /** the main-loop sources this applet has registered */
    const loop: MainLoop

    var wallpaperPath: string
    var wallpaperDelay: nat
    var wallpaperTimer: nat
    /** `this._timeout`: the id of the pending timeout, or null */
    var timeout: Option<nat>
    /** every command line handed to `Util.spawnCommandLine`, in order */
    ghost var spawned: seq<string>

    /** The handle and the main loop agree: with no handle nothing is
        live, with a handle exactly that source is live. */
    ghost predicate Valid()
      reads this, loop
    {
      loop.Valid() &&
      match timeout
      case None => loop.sources == map[]
      case Some(id) => loop.sources.Keys == {id}
    }

    /** `_init`: the settings hold their stored values, then
        `initialize_wallpaper_dir` and `_start_applet` run. */
    constructor (appletDir: string, homeDir: string, path: string, delay: nat, timer: nat,
                 existing: set<string>)
      ensures Valid() && fresh(loop)
      ensures this.appletDir == appletDir && this.homeDir == homeDir
      ensures wallpaperPath == if path == "" then DefaultWallpaperDir(homeDir) else path
      ensures wallpaperDelay == delay && wallpaperTimer == timer
      ensures spawned == Spawns(appletDir, existing, wallpaperPath, delay, timer)
      ensures timeout.Some? && loop.sources == map[timeout.value := ArmedSeconds(timer)]
    {
      this.appletDir := appletDir;
      this.homeDir := homeDir;
      loop := new MainLoop();
      wallpaperPath := path;
      wallpaperDelay := delay;
      wallpaperTimer := timer;
      timeout := None;
      spawned := [];
      new;
      InitializeWallpaperDir();
      StartApplet(existing);
    }

    /** `_start_applet`: run the script, then re-arm with
        `wallpaper_timer || 3600` seconds whether or not it was spawned. */
    method StartApplet(existing: set<string>)
      requires Valid()
      modifies this`spawned, this`timeout, loop
      ensures Valid()
      ensures spawned == old(spawned)
                         + Spawns(appletDir, existing, wallpaperPath, wallpaperDelay, wallpaperTimer)
      ensures timeout.Some? && timeout.value !in old(loop.sources)
      ensures old(loop.nextId) <= timeout.value
      ensures loop.sources == map[timeout.value := ArmedSeconds(wallpaperTimer)]
    {
      RunWallpaperScript(existing);
      SetTimeout(ArmedSeconds(wallpaperTimer));
    }

    /** `run_wallpaper_script`: spawn the script only when the directory
        exists and path, delay and timer are all set. */
    method RunWallpaperScript(existing: set<string>)
      modifies this`spawned
      ensures spawned == old(spawned)
                         + Spawns(appletDir, existing, wallpaperPath, wallpaperDelay, wallpaperTimer)
    {
      if SpawnGate(wallpaperPath in existing, wallpaperPath, wallpaperDelay, wallpaperTimer) {
        var command := ScriptCommand(appletDir, wallpaperPath, wallpaperDelay);
        spawned := spawned + [command];
      }
    }

    /** `property_changed(key)`, called after the setting `key` has been
        stored: cancel the timeout, strip `file://` from a new path, and
        restart only when `wallpaper_timer` is set. */
    method PropertyChanged(key: string, existing: set<string>)
      requires Valid()
      modifies this`wallpaperPath, this`spawned, this`timeout, loop
      ensures Valid()
      ensures wallpaperPath == if key == PathKey then StripFileScheme(old(wallpaperPath))
                               else old(wallpaperPath)
      ensures wallpaperTimer == 0 ==>
                timeout == None && loop.sources == map[] && spawned == old(spawned)
      ensures wallpaperTimer != 0 ==>
                && timeout.Some? && timeout.value !in old(loop.sources)
                && loop.sources == map[timeout.value := wallpaperTimer]
                && spawned == old(spawned)
                   + Spawns(appletDir, existing, wallpaperPath, wallpaperDelay, wallpaperTimer)
    {
      RemoveTimeout();
      if key == PathKey {
        wallpaperPath := StripFileScheme(wallpaperPath);
      }
      if wallpaperTimer != 0 {
        StartApplet(existing);
      }
    }

    /** `initialize_wallpaper_dir`: an empty path becomes the default
        directory under the home directory. */
    method InitializeWallpaperDir()
      modifies this`wallpaperPath
      ensures old(wallpaperPath) == "" ==> wallpaperPath == DefaultWallpaperDir(homeDir)
      ensures old(wallpaperPath) != "" ==> wallpaperPath == old(wallpaperPath)
      ensures wallpaperPath != ""
    {
      if wallpaperPath == "" {
        wallpaperPath := DefaultWallpaperDir(homeDir);
      }
    }

    /** `_removeTimeout`: the pending source, if any, is removed and the
        handle cleared; with nothing pending nothing changes. */
    method RemoveTimeout()
      requires Valid()
      modifies this`timeout, loop
      ensures Valid()
      ensures timeout == None && loop.sources == map[]
      ensures loop.nextId == old(loop.nextId)
      ensures old(timeout) == None ==> loop.sources == old(loop.sources)
    {
      // source ids are positive, so a present handle is a truthy one
      if timeout.Some? {
        loop.SourceRemove(timeout.value);
        timeout := None;
      }
    }

    /** `_setTimeout(seconds)`: cancel first, then register one new source
        of `seconds` seconds and keep its id. */
    method SetTimeout(seconds: nat)
      requires Valid()
      modifies this`timeout, loop
      ensures Valid()
      ensures timeout.Some? && timeout.value !in old(loop.sources)
      ensures old(loop.nextId) <= timeout.value
      ensures old(timeout).Some? ==> old(timeout).value !in loop.sources
      ensures loop.sources == map[timeout.value := seconds]
    {
      RemoveTimeout();
      var id := loop.TimeoutAddSeconds(seconds);
      timeout := Some(id);
    }

    /** The bound `_start_applet` callback firing for the pending source;
        it returns undefined, so the main loop drops the fired source,
        which `_setTimeout` has already removed. */
    method OnTimeout(existing: set<string>)
      requires Valid() && timeout.Some?
      modifies this`spawned, this`timeout, loop
      ensures Valid()
      ensures spawned == old(spawned)
                         + Spawns(appletDir, existing, wallpaperPath, wallpaperDelay, wallpaperTimer)
      ensures timeout.Some? && timeout != old(timeout)
      ensures loop.sources == map[timeout.value := ArmedSeconds(wallpaperTimer)]
    {
      var fired := timeout.value;
      StartApplet(existing);
      loop.FinishDispatch(fired, false);
    }

    /** `destroy`: no source outlives the applet. */
    method Destroy()
      requires Valid()
      modifies this`timeout, loop
      ensures Valid()
      ensures timeout == None && loop.sources == map[]
    {
      RemoveTimeout();
    }

    /** `on_applet_removed_from_panel`: no source outlives the applet. */
    method OnAppletRemovedFromPanel()
      requires Valid()
      modifies this`timeout, loop
      ensures Valid()
      ensures timeout == None && loop.sources == map[]
    {
      RemoveTimeout();
    }
  }
}

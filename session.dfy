/** The applet driven by any sequence of what can happen to it: a settings
    binding storing a new value and calling `property_changed`, the pending
    timeout firing, and the two teardown hooks. */
module AppletSession {
  import opened Wrappers
  import opened WallpaperApplet

  datatype Event =
    | PathSet(path: string)
    | DelaySet(delay: nat)
    | TimerSet(timer: nat)
    | TimerFired
    | Destroyed
    | RemovedFromPanel

  predicate IsTeardown(e: Event) {
    e.Destroyed? || e.RemovedFromPanel?
  }

  /** `c` is the command for a directory that exists, is non-empty, and
      comes with a non-zero delay. */
  ghost predicate Permitted(appletDir: string, existing: set<string>, c: string) {
    exists p: string, d: nat :: p in existing && p != "" && d != 0 && c == ScriptCommand(appletDir, p, d)
  }

  /** `c` was permitted under one of the first `n` file-system snapshots. */
  ghost predicate PermittedBefore(appletDir: string, existing: seq<set<string>>, n: nat, c: string)
    requires n <= |existing|
  {
    exists j :: 0 <= j < n && Permitted(appletDir, existing[j], c)
  }

  lemma SpawnsPermitted(appletDir: string, existing: set<string>, path: string, delay: nat, timer: nat)
    ensures forall c :: c in Spawns(appletDir, existing, path, delay, timer) ==> Permitted(appletDir, existing, c)
  {
  }

  predicate IsSetting(e: Event) {
    e.PathSet? || e.DelaySet? || e.TimerSet?
  }

  /** The settings key a binding passes to `property_changed`. */
  function Key(e: Event): string
    requires IsSetting(e)
  {
    match e
    case PathSet(_) => PathKey
    case DelaySet(_) => DelayKey
    case TimerSet(_) => TimerKey
  }

  /** One event, as the settings binding and the main loop deliver it,
      with `existing` the file system at that moment. A settings change
      stores its value and calls `property_changed`; a firing runs the
      pending source's callback; a teardown runs its hook. */
  method Step(applet: WallpaperChanger, e: Event, existing: set<string>)
    requires applet.Valid()
    modifies applet, applet.loop
    ensures applet.Valid()
    ensures e.PathSet? ==> applet.wallpaperPath == StripFileScheme(e.path)
    ensures !e.PathSet? ==> applet.wallpaperPath == old(applet.wallpaperPath)
    ensures applet.wallpaperDelay == if e.DelaySet? then e.delay else old(applet.wallpaperDelay)
    ensures applet.wallpaperTimer == if e.TimerSet? then e.timer else old(applet.wallpaperTimer)
    ensures IsSetting(e) && applet.wallpaperTimer == 0 ==>
              applet.timeout == None && applet.loop.sources == map[]
    ensures IsSetting(e) && applet.wallpaperTimer != 0 ==>
              applet.timeout.Some? && applet.loop.sources == map[applet.timeout.value := applet.wallpaperTimer]
    ensures IsSetting(e) ==>
              applet.spawned == old(applet.spawned)
              + (if applet.wallpaperTimer != 0
                 then Spawns(applet.appletDir, existing, applet.wallpaperPath,
                             applet.wallpaperDelay, applet.wallpaperTimer)
                 else [])
    ensures e.TimerFired? && old(applet.timeout).Some? ==>
              && applet.timeout.Some? && applet.timeout != old(applet.timeout)
              && applet.loop.sources == map[applet.timeout.value := ArmedSeconds(applet.wallpaperTimer)]
              && applet.spawned == old(applet.spawned)
                 + Spawns(applet.appletDir, existing, applet.wallpaperPath,
                          applet.wallpaperDelay, applet.wallpaperTimer)
    ensures e.TimerFired? && old(applet.timeout) == None ==>
              applet.timeout == None && applet.spawned == old(applet.spawned)
    ensures IsTeardown(e) ==>
              applet.timeout == None && applet.loop.sources == map[] && applet.spawned == old(applet.spawned)
  {
    match e {
      case PathSet(p) =>
        applet.wallpaperPath := p;
        applet.PropertyChanged(Key(e), existing);
      case DelaySet(d) =>
        applet.wallpaperDelay := d;
        applet.PropertyChanged(Key(e), existing);
      case TimerSet(t) =>
        applet.wallpaperTimer := t;
        applet.PropertyChanged(Key(e), existing);
      case TimerFired =>
        // only a live source can fire
        if applet.timeout.Some? {
          applet.OnTimeout(existing);
        }
      case Destroyed =>
        applet.Destroy();
      case RemovedFromPanel =>
        applet.OnAppletRemovedFromPanel();
    }
  }

  /** Across any sequence of events, each seen with the file system of its
      own moment (`existing[j]` for `events[j]`): at most one source is
      live and it is the one the applet holds, nothing is live after a
      final teardown, and every spawned command names a non-empty
      directory that existed when some event of the sequence spawned it,
      with a non-zero delay. */
  method Run(applet: WallpaperChanger, events: seq<Event>, existing: seq<set<string>>)
    requires applet.Valid()
    requires |existing| == |events|
    modifies applet, applet.loop
    ensures applet.Valid()
    ensures forall a, b :: a in applet.loop.sources && b in applet.loop.sources ==> a == b
    ensures applet.timeout.Some? ==> applet.timeout.value in applet.loop.sources
    ensures |events| > 0 && IsTeardown(events[|events| - 1]) ==> applet.loop.sources == map[]
    ensures |old(applet.spawned)| <= |applet.spawned|
    ensures applet.spawned[..|old(applet.spawned)|] == old(applet.spawned)
    ensures forall k :: |old(applet.spawned)| <= k < |applet.spawned| ==>
              PermittedBefore(applet.appletDir, existing, |events|, applet.spawned[k])
  {
    ghost var before := applet.spawned;
    var i := 0;
    while i < |events|
      invariant 0 <= i <= |events|
      invariant applet.Valid()
      invariant 0 < i && IsTeardown(events[i - 1]) ==> applet.loop.sources == map[]
      invariant |before| <= |applet.spawned| && applet.spawned[..|before|] == before
      invariant forall k :: |before| <= k < |applet.spawned| ==>
                  PermittedBefore(applet.appletDir, existing, i, applet.spawned[k])
    {
      ghost var log := applet.spawned;
      ghost var dir := applet.appletDir;
      Step(applet, events[i], existing[i]);
      ghost var path, delay, timer := applet.wallpaperPath, applet.wallpaperDelay, applet.wallpaperTimer;
      SpawnsPermitted(dir, existing[i], path, delay, timer);
      assert applet.spawned == log || applet.spawned == log + Spawns(dir, existing[i], path, delay, timer);
      assert applet.spawned[..|before|] == log[..|before|];
      forall k | |before| <= k < |applet.spawned|
        ensures PermittedBefore(dir, existing, i + 1, applet.spawned[k])
      {
        if k < |log| {
          assert applet.spawned[k] == log[k];
          assert PermittedBefore(dir, existing, i, log[k]);
          var j :| 0 <= j < i && Permitted(dir, existing[j], log[k]);
          assert Permitted(dir, existing[j], applet.spawned[k]);
        } else {
          assert applet.spawned[k] in Spawns(dir, existing[i], path, delay, timer);
          assert Permitted(dir, existing[i], applet.spawned[k]);
        }
      }
      i := i + 1;
    }
  }
}

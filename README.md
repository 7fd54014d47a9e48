# Wallpaper Changer applet — verified model of its timer and lifecycle

The Cinnamon applet `wallpaper-changer@amaan-mohib` periodically runs a
wallpaper script on the user's wallpaper directory. Its only logic is the
bookkeeping of the `WallpaperChanger` object in `applet.js`. The object
keeps at most one pending main-loop timeout in `_timeout`. It holds three
settings: `wallpaper_path`, `wallpaper_delay` and `wallpaper_timer`.
`_start_applet` spawns the script when the configuration allows it and then
re-arms the timeout. A settings change cancels the timeout, normalises a
`file://` path and restarts the cycle when a timer interval is set.
Teardown cancels the timeout.

The model is written in Dafny:

- `mainloop.dfy` (module `Mainloop`): class `MainLoop`, the part of the
  GLib main context the applet touches. It holds the live timeout sources
  (id to period in seconds) and the counter that hands out positive ids.
- `applet.dfy` (module `WallpaperApplet`): class `WallpaperChanger`, with
  one method per member of `WallpaperChanger.prototype`. `Valid()` states
  the object's invariant: with no handle nothing is live, and with a handle
  exactly that source is live. The pure parts of the methods are lifted
  into functions: the `file://` strip, the `|| 3600` default, the spawn
  gate and the command line. Spawned command lines go to the ghost log
  `spawned`. Directory existence (`Gio.File.query_exists`) is the
  parameter `existing`, the set of paths that exist.
- `strings.dfy` (module `Strings`): the decimal text a template literal
  gives a whole number, and the split of a command line into argument
  words that `Util.spawnCommandLine` performs. Both are stated with their
  inverses.
- `session.dfy` (module `AppletSession`): the applet driven by any sequence
  of events. An event is a settings binding storing a value and calling
  `property_changed`, the timeout firing, or a teardown hook.
- `wrappers.dfy` (module `Wrappers`): `Option`, for the `_timeout` handle.

The applet spawns the script asynchronously and never reads its output. It strips `file://` only inside `property_changed`, so a
prefixed path stored before start-up is used as it is. The prefix is cut
once, so `file://file://x` becomes `file://x`.

## Model

| member | source | states |
|---|---|---|
| `WallpaperApplet.WallpaperChanger.RemoveTimeout` | applet.js:107-113 | Afterwards the handle is null and no source is live. With no handle pending, the main loop is left unchanged, so a second call is a no-op. |
| `WallpaperApplet.WallpaperChanger.SetTimeout` | applet.js:115-123 | The old source is removed before a new one is registered. Afterwards exactly one source is live: the stored handle, with a fresh id and the given period. |
| `WallpaperApplet.WallpaperChanger.StartApplet` | applet.js:68-71 | Appends to the log what the spawn gate allows. Then it arms exactly one fresh source of `wallpaper_timer` seconds, or 3600 when that is 0, whether or not anything was spawned. |
| `WallpaperApplet.WallpaperChanger.RunWallpaperScript` | applet.js:73-88 | The log grows by exactly the script command when the directory exists and path, delay and timer are all set. Otherwise it is unchanged. |
| `WallpaperApplet.WallpaperChanger.PropertyChanged` | applet.js:90-99 | The path is stripped of `file://` only for the `wallpaper_path` key; delay and timer are untouched. With timer 0 it ends with no live source and no spawn. Otherwise it ends with exactly one fresh source of `wallpaper_timer` seconds, plus the gated spawn. |
| `WallpaperApplet.WallpaperChanger.InitializeWallpaperDir` | applet.js:101-105 | An empty path becomes `home + "/Pictures/wallpapers"`, and a non-empty path is kept. The path is non-empty afterwards. |
| `WallpaperApplet.WallpaperChanger.OnTimeout` | applet.js:119-122 | The fired callback runs `_start_applet`. The main loop then drops the fired source. Exactly one source, a new one, is live afterwards. |
| `WallpaperApplet.WallpaperChanger.Destroy` | applet.js:125-127 | No source is live and the handle is null. |
| `WallpaperApplet.WallpaperChanger.OnAppletRemovedFromPanel` | applet.js:128-130 | No source is live and the handle is null. |
| `WallpaperApplet.WallpaperChanger.constructor` | applet.js:39-62 | `_init` runs `initialize_wallpaper_dir` and then `_start_applet`. The path gets its default, the gated spawn happens, and one source of the armed period is live. |
| `WallpaperApplet.ArmedSeconds` | applet.js:70 | The armed period is always positive. It is `wallpaper_timer` when that is set and 3600 otherwise. |
| `WallpaperApplet.StripFileScheme` | applet.js:92-96 | With the `file://` prefix, the result is what follows those 7 characters. Without it, the path is unchanged. |
| `WallpaperApplet.StripAddedScheme` | applet.js:93-95 | Stripping removes exactly one added `file://`, even before another one. |
| `WallpaperApplet.StripKeepsAbsolutePath` | applet.js:93-95 | An absolute path is left unchanged. |
| `WallpaperApplet.Spawns` | applet.js:75-84 | Uses `SpawnGate`, the four-condition test of applet.js:75-80. A command is spawned if and only if the path exists and path, delay and timer are non-empty or non-zero. That command is exactly `AppletDir + "/scripts/wallpaper_script.py " + path + " " + delay`. |
| `WallpaperApplet.ScriptCommand` | applet.js:81-84 | The command starts with the script under the install directory and a space. It ends with a space and the delay's text, and its length is that of its parts plus the two separating spaces. |
| `WallpaperApplet.DefaultWallpaperDir` | applet.js:103 | The default directory is non-empty. It is the home directory followed by `/Pictures/wallpapers`. |
| `Strings.Words` | applet.js:86 | Every argument word the command-line split yields is non-empty and contains no blank. |
| `WallpaperApplet.CommandArguments` | applet.js:81-86 | For an install directory and a wallpaper path without blanks or quotes, the spawned command line splits into exactly three arguments: the script, the path and the delay. The delay argument reads back as the setting. |
| `Strings.DecimalText` | applet.js:84 | The delay's text is non-empty, made of decimal digits and without a leading zero. |
| `Strings.DecimalRoundTrip` | applet.js:84 | Reading the delay's text back gives the delay. |
| `Strings.DecimalTextInjective` | applet.js:84 | Distinct delays give distinct texts. |
| `Strings.WordsOfThree` | applet.js:86 | Three non-empty plain words joined by single spaces split back into exactly those words. |
| `Mainloop.MainLoop.TimeoutAddSeconds` | applet.js:119-122 | Registers one source with the given period under a positive id that no source has had before. |
| `Mainloop.MainLoop.SourceRemove` | applet.js:109 | The given source is no longer live, and nothing else changes. |
| `Mainloop.MainLoop.FinishDispatch` | applet.js:119-122 | A callback returning a falsy value has its source dropped. |
| `AppletSession.SpawnsPermitted` | applet.js:75-86 | Every command the gate lets through names an existing, non-empty path and a non-zero delay. |
| `AppletSession.Step` | applet.js:47-57 | Models one event with the file system of its moment: a settings binding storing a value and calling `property_changed`, the pending source firing, or a teardown. It states each event's new settings, its new live sources and its exact addition to the log. A settings change spawns through the four-condition gate only when the timer is set. A firing spawns through the gate. A firing with nothing pending, or a teardown, spawns nothing. |
| `AppletSession.Run` | applet.js:68-71 | Events are each seen with their own file-system snapshot. After any sequence of events at most one source is live, and it is the stored handle. Nothing is live after a final teardown. Every command spawned along the way names a non-empty path that existed in some event's snapshot, and a non-zero delay. |

## Left out

- Cinnamon and GJS imports, `Gettext` and `_()`, and `log`/`global.log` (applet.js:1-23): library calls and logging only.
- Icon, tooltip and `on_applet_clicked` launching `cinnamon-settings` (applet.js:58-59, 64-66): user interface.
- The `bindProperty` loop over `SettingsMap` (applet.js:47-57) is not modelled as such. A settings change is `AppletSession.Step` storing the field and calling `PropertyChanged` with the key.
- The wallpaper script itself. `Util.spawnCommandLine` launches it asynchronously and nothing reads its output, so a spawn is an entry in the log. A failure to launch is not modelled.
- Real timing. A timeout firing is the event that calls `OnTimeout`. Nothing models when it fires.
- `AppletDir` and `GLib.get_home_dir()` (applet.js:14, 103) are constant string parameters of the object.
- `MainLoop` holds only the sources this applet registers. The shell's other sources in the same main context are not modelled.
- Settings values: `wallpaper_delay` and `wallpaper_timer` are whole numbers (`nat`). Negative, fractional or NaN values are not modelled. Neither is the exponent notation JavaScript uses for numbers of 10^21 and more.
- `Strings.Words` models the argument split only for text without quotes, backslashes or comment marks. This is why `WallpaperApplet.CommandArguments` requires shell-plain paths. The applet does not quote the path, so a directory containing a blank would reach the script as two arguments.
- The applet never unbinds its settings, so a settings change delivered after teardown would arm a timeout again. `AppletSession.Run` promises an empty main loop only when a teardown is the last event.
- AppletSession.Run: for each spawned command it states only that some event's snapshot permitted it, not which event spawned it. The timer condition of the gate and the exact per-event addition to the log are in `AppletSession.Step`'s contract.
- Mainloop.MainLoop.TimeoutAddSeconds: accepts any whole-number period. `GLib.timeout_add_seconds` takes its interval as a 32-bit unsigned integer, so in the applet a `wallpaper_timer` of 2^32 seconds or more makes `_setTimeout` throw after `_removeTimeout` has already cleared the handle. Nothing is then live, and the exception escapes `property_changed` or `_init`. Periods of 2^32 seconds or more are outside the model: `WallpaperChanger.SetTimeout`, `StartApplet`, `PropertyChanged`, `OnTimeout`, the constructor and `AppletSession.Step` promise one live source of that period for them.

/**
 * The wallpaper/theme store. Its fields are those of the source object plus the two
 * persisted options it writes (`wallpaper.current` and `wallpaper.theme.cache`). Signals
 * go to an event log; the colour tool, `notify-send`, the file system, the clock, the
 * hour and `Math.random()` are inputs of the operations; callbacks queued with
 * `setTimeout(…, 0)` wait in `deferred` until `RunDeferred` runs the first one; the
 * 100 ms theme debounce timer is the single slot `pendingTheme` and fires in
 * `FireThemeTimer`.
 *
 * Each operation is a method that updates the fields the way the source does, proved
 * against a transition function on `StoreState`; the properties are lemmas about
 * those functions.
 */
module WallpaperStore {
  import opened Wrappers
  import opened JsStrings
  import opened OrderedMap
  import opened WallpaperTypes
  import opened ThemeRules
  import opened ThemeCache
  import opened WallpaperIndex

  /** Why an `error` signal was emitted. */
  datatype Failure =
    | ThemeCacheLoadFailed    // "Failed to load theme cache"
    | NoWallpapers            // "No wallpapers available"
    | NoFilePath              // "Could not get file path for wallpaper"
    | WallpaperSettingFailed  // "Wallpaper setting failed: …"
    | ThemeApplicationFailed  // "Theme application failed: …"
    | ManualThemeFailed       // "Failed to apply theme: …"

  datatype Event =
    | WallpapersChanged(items: seq<Item>)
    | WallpaperSet(path: string)
    | ThemeSettingsChanged(mode: ThemeMode, scheme: ThemeScheme)
    | Error(failure: Failure)
    | Exec(command: string)   // a command line handed to `execAsync`
    | Spawn(command: string)  // a command line handed to `GLib.spawn_command_line_async`

  /** A callback queued with `setTimeout(…, 0)`. */
  datatype Task = CleanupCache | SaveCache | Notify(path: string, analysis: ThemeProperties)

  /** What the environment answers: whether the colour tool is executable, and where `notify-send` is. */
  datatype Env = Env(chromashExecutable: bool, notifySend: Option<string>)

  datatype StoreState = StoreState(
    optCurrent: string,                              // option wallpaper.current
    optCache: Option<seq<Entry<PersistedValue>>>,    // option wallpaper.theme.cache; None: null or undefined, a primitive: its PScalar entries
    wallpaperDir: string,                            // option wallpaper.dir
    wallpapers: seq<Item>,
    currentWallpaperPath: string,
    includeHidden: bool,
    maxItems: nat,
    manualMode: ThemeMode,
    manualScheme: ThemeScheme,
    cache: Cache,
    maxCacheSize: nat,                               // option wallpaper.theme.cache-size
    pendingTheme: Option<string>,                    // the armed debounce timer and the path it will analyse
    watching: bool,                                  // the wallpaper.dir subscription is live
    deferred: seq<Task>,
    events: seq<Event>,
    chromash: string)

  /** What every reachable state satisfies: a cache with unique keys and truthy timestamps. */
  predicate ValidState(s: StoreState) {
    Stamped(s.cache)
  }

  /** Unique keys, and every entry carries a truthy timestamp. */
  predicate Stamped(c: Cache) {
    UniqueKeys(c) && forall i :: 0 <= i < |c| ==> c[i].value.timestamp != 0
  }

  function WithEvent(s: StoreState, e: Event): StoreState {
    s.(events := s.events + [e])
  }

  /** `loadThemeCache` */
  function LoadCacheStep(s: StoreState): StoreState {
    match s.optCache
    case None => WithEvent(s, Error(ThemeCacheLoadFailed))
    case Some(stored) =>
      var (c, failed) := Reload(s.cache, stored);
      if failed then WithEvent(s.(cache := c), Error(ThemeCacheLoadFailed)) else s.(cache := c)
  }

  /** `loadWallpapers` followed by `updateWallpapers` */
  function LoadWallpapersStep(s: StoreState, root: Option<Node>): StoreState {
    var items := Wallpapers(root, s.wallpaperDir, s.includeHidden);
    WithEvent(s.(wallpapers := items), WallpapersChanged(items))
  }

  /** The state the constructor leaves. */
  function Initial(includeHidden: bool, home: string, dir: string, current: string,
                   stored: Option<seq<Entry<PersistedValue>>>, maxCacheSize: nat, root: Option<Node>): StoreState
  {
    var s0 := StoreState(current, stored, dir, [], "", includeHidden, 12, AutoMode, AutoScheme,
                         [], maxCacheSize, None, true, [], [], ChromashPath(home));
    LoadWallpapersStep(LoadCacheStep(s0), root)
  }

  /** A change of the wallpaper.dir option: reloaded while the subscription is live. */
  function DirChangedStep(s: StoreState, dir: string, root: Option<Node>): StoreState {
    if s.watching then LoadWallpapersStep(s.(wallpaperDir := dir), root) else s.(wallpaperDir := dir)
  }

  /** `sendThemeNotification` */
  function NotifyStep(s: StoreState, env: Env, path: string, a: ThemeProperties): StoreState {
    match env.notifySend
    case None => s
    case Some(n) => WithEvent(s, Spawn(NotifyCommand(n, path, a)))
  }

  /**
   * `setWallpaper(file)` with `file.get_path()` given as `path` and the result of the
   * wallpaper command as `execOk`: the net effect once the awaited command settled.
   */
  function SetWallpaperStep(s: StoreState, path: Option<string>, env: Env, execOk: bool): StoreState {
    match path
    case None => WithEvent(s, Error(NoFilePath))
    case Some(p) =>
      if p == s.optCurrent then s
      else if !env.chromashExecutable then
        WithEvent(s.(currentWallpaperPath := s.optCurrent), Error(WallpaperSettingFailed))
      else
        var cmd := WallpaperCommand(s.chromash, p, s.manualMode, s.manualScheme);
        if !execOk then
          s.(currentWallpaperPath := s.optCurrent, events := s.events + [Exec(cmd), Error(WallpaperSettingFailed)])
        else
          s.(optCurrent := p, currentWallpaperPath := p, pendingTheme := Some(p),
             events := s.events + [Exec(cmd), WallpaperSet(p)])
  }

  /** `setRandomWallpaper` */
  function SetRandomStep(s: StoreState, random: real, env: Env, execOk: bool): StoreState
    requires 0.0 <= random < 1.0
  {
    if |s.wallpapers| == 0 then WithEvent(s, Error(NoWallpapers))
    else SetWallpaperStep(s, Some(PickRandom(s.wallpapers, s.optCurrent, random).path), env, execOk)
  }

  /** `applyManualThemeSettings`, with the result of the command as `execOk`. */
  function ApplyManualStep(s: StoreState, env: Env, execOk: bool): StoreState {
    if !env.chromashExecutable || s.currentWallpaperPath == "" then s
    else
      var s1 := WithEvent(s, Exec(WallpaperCommand(s.chromash, s.currentWallpaperPath, s.manualMode, s.manualScheme)));
      if execOk then NotifyStep(s1, env, s.currentWallpaperPath, ManualAnalysis(s.manualMode, s.manualScheme))
      else WithEvent(s1, Error(ManualThemeFailed))
  }

  /** `setManualMode` */
  function SetManualModeStep(s: StoreState, mode: ThemeMode, env: Env, execOk: bool): StoreState {
    if s.manualMode == mode then s
    else
      var s1 := WithEvent(s.(manualMode := mode), ThemeSettingsChanged(mode, s.manualScheme));
      if s1.currentWallpaperPath != "" then ApplyManualStep(s1, env, execOk) else s1
  }

  /** `setManualScheme` */
  function SetManualSchemeStep(s: StoreState, scheme: ThemeScheme, env: Env, execOk: bool): StoreState {
    if s.manualScheme == scheme then s
    else
      var s1 := WithEvent(s.(manualScheme := scheme), ThemeSettingsChanged(s.manualMode, scheme));
      if s1.currentWallpaperPath != "" then ApplyManualStep(s1, env, execOk) else s1
  }

  /** `cacheThemeAnalysis`: set the entry, queue a cleanup when over the limit, queue a save. */
  function CacheStep(s: StoreState, path: string, a: ThemeProperties, now: int): StoreState {
    var c := Put(s.cache, path, ToCached(a, now));
    s.(cache := c, deferred := s.deferred + (if |c| > s.maxCacheSize then [CleanupCache] else []) + [SaveCache])
  }

  /**
   * The debounce timer fires: `applyThemeWithManualOverrides` on the armed path, with the
   * colour tool's report as `output` (`None` when the command fails), `Date.now()` as
   * `now` and the hour of the day as `hour`.
   */
  function FireThemeTimerStep(s: StoreState, env: Env, output: Option<string>, now: int, hour: int): StoreState {
    match s.pendingTheme
    case None => s
    case Some(p) =>
      var s0 := s.(pendingTheme := None);
      if !env.chromashExecutable then s0
      else
        var s1 := WithEvent(s0, Exec(ThemeCommand(s.chromash)));
        match output
        case None => WithEvent(s1, Error(ThemeApplicationFailed))
        case Some(o) =>
          var auto := ParseOutput(o);
          var s2 := CacheStep(s1, p, auto, now);
          s2.(deferred := s2.deferred + [Notify(p, Merge(auto, s.manualMode, s.manualScheme))])
  }

  /** Runs the first queued `setTimeout(…, 0)` callback. */
  function RunDeferredStep(s: StoreState, env: Env): StoreState
    requires ValidState(s)
  {
    if s.deferred == [] then s
    else
      var s0 := s.(deferred := s.deferred[1..]);
      match s.deferred[0]
      case CleanupCache => s0.(cache := Cleanup(s0.cache, s0.maxCacheSize))
      case SaveCache => s0.(optCache := Some(Snapshot(s0.cache)))
      case Notify(p, a) => NotifyStep(s0, env, p, a)
  }

  /** `clearThemeCache` */
  function ClearStep(s: StoreState): StoreState {
    s.(cache := [], optCache := Some([]))
  }

  /** `dispose` */
  function DisposeStep(s: StoreState): StoreState {
    s.(pendingTheme := None, watching := false, cache := [])
  }

  class Store {
    var optCurrent: string
    var optCache: Option<seq<Entry<PersistedValue>>>
    var wallpaperDir: string
    var wallpapers: seq<Item>
    var currentWallpaperPath: string
    var includeHidden: bool
    var maxItems: nat
    var manualMode: ThemeMode
    var manualScheme: ThemeScheme
    var themeCache: Cache
    var maxCacheSize: nat
    var pendingTheme: Option<string>
    var watching: bool
    var deferred: seq<Task>
    var events: seq<Event>
    var chromash: string

    function State(): StoreState
      reads this
    {
      StoreState(optCurrent, optCache, wallpaperDir, wallpapers, currentWallpaperPath, includeHidden,
                 maxItems, manualMode, manualScheme, themeCache, maxCacheSize, pendingTheme, watching,
                 deferred, events, chromash)
    }

    ghost predicate Valid()
      reads this
    {
      ValidState(State())
    }

    constructor(includeHidden: bool, home: string, dir: string, current: string,
                stored: Option<seq<Entry<PersistedValue>>>, maxCacheSize: nat, root: Option<Node>)
      ensures State() == Initial(includeHidden, home, dir, current, stored, maxCacheSize, root)
      ensures Valid()
    {
      optCurrent := current;
      optCache := stored;
      wallpaperDir := dir;
      wallpapers := [];
      currentWallpaperPath := "";
      this.includeHidden := includeHidden;
      maxItems := 12;
      manualMode := AutoMode;
      manualScheme := AutoScheme;
      themeCache := [];
      this.maxCacheSize := maxCacheSize;
      pendingTheme := None;
      watching := true;
      deferred := [];
      events := [];
      chromash := ChromashPath(home);
      new;
      LoadThemeCache();
      LoadWallpapers(root);
    }

    method Emit(e: Event)
      modifies this
      ensures State() == WithEvent(old(State()), e)
    {
      events := events + [e];
    }

    /** Reads the persisted cache object entry by entry; a `null` entry throws and ends the loop. */
    method LoadThemeCache()
      requires Valid()
      modifies this
      ensures State() == LoadCacheStep(old(State()))
      ensures Valid()
    {
      if optCache.None? {
        Emit(Error(ThemeCacheLoadFailed));
        return;
      }
      var stored := optCache.value;
      ghost var c0 := themeCache;
      var failed := false;
      var i := 0;
      while i < |stored| && !failed
        invariant 0 <= i <= |stored|
        decreases |stored| - i + (if failed then 0 else 1)
        invariant ValidState(State())
        invariant !failed ==> Reload(c0, stored) == Reload(themeCache, stored[i..])
        invariant failed ==> Reload(c0, stored) == (themeCache, true)
        invariant events == old(events) && optCache == old(optCache)
        invariant State() == old(State()).(cache := themeCache)
      {
        var e := stored[i];
        assert stored[i..] == [e] + stored[i + 1..];
        if e.value.PNull? {
          failed := true;
        } else {
          if Truthy(e.value) {
            themeCache := Put(themeCache, e.key, ToCached(e.value.props, e.value.timestamp.value));
          }
          i := i + 1;
        }
      }
      if failed {
        Emit(Error(ThemeCacheLoadFailed));
      }
    }

    method LoadWallpapers(root: Option<Node>)
      modifies this
      ensures State() == LoadWallpapersStep(old(State()), root)
    {
      var items: seq<Item> := [];
      if root.Some? {
        var files := Ls(wallpaperDir, root.value, 2, includeHidden);
        var images := ImagesOf(files);
        items := seq(|images|, i requires 0 <= i < |images| => ToItem(images[i]));
      }
      wallpapers := items;
      Emit(WallpapersChanged(items));
    }

    /** `refresh` */
    method Refresh(root: Option<Node>)
      modifies this
      ensures State() == LoadWallpapersStep(old(State()), root)
    {
      LoadWallpapers(root);
    }

    /** The wallpaper.dir option changes to `dir`, whose contents are `root`. */
    method DirChanged(dir: string, root: Option<Node>)
      modifies this
      ensures State() == DirChangedStep(old(State()), dir, root)
    {
      wallpaperDir := dir;
      if watching {
        LoadWallpapers(root);
      }
    }

    /** `search`, with the fuzzy matcher's ranking of the wallpapers for `text` handed in. */
    function Search(text: string, ranked: seq<Item>): (r: seq<Item>)
      reads this
      ensures |r| <= maxItems
    {
      WallpaperIndex.Search(text, ranked, maxItems)
    }

    method SendThemeNotification(env: Env, path: string, a: ThemeProperties)
      modifies this
      ensures State() == NotifyStep(old(State()), env, path, a)
    {
      if env.notifySend.None? {
        return;
      }
      Emit(Spawn(NotifyCommand(env.notifySend.value, path, a)));
    }

    /** `applyWallpaperWithChromash`: `ok` is false where the source throws. */
    method ApplyWallpaperWithChromash(path: string, env: Env, execOk: bool) returns (ok: bool)
      modifies this
      ensures ok == (env.chromashExecutable && execOk)
      ensures State() == old(State()).(
        events := old(events) + (if env.chromashExecutable then [Exec(WallpaperCommand(chromash, path, manualMode, manualScheme))] else []),
        pendingTheme := if ok then Some(path) else old(pendingTheme))
    {
      if !env.chromashExecutable {
        return false;
      }
      var cmd := WallpaperCommand(chromash, path, manualMode, manualScheme);
      Emit(Exec(cmd));
      if !execOk {
        return false;
      }
      ScheduleThemeUpdate(path);
      return true;
    }

    /** `scheduleThemeUpdate`: cancels the armed timer, if any, and arms one for `path`. */
    method ScheduleThemeUpdate(path: string)
      modifies this
      ensures State() == old(State()).(pendingTheme := Some(path))
    {
      pendingTheme := Some(path);
    }

    /** `setWallpaper`: skip an unchanged path, write optimistically, roll back on failure. */
    method SetWallpaper(path: Option<string>, env: Env, execOk: bool)
      modifies this
      ensures State() == SetWallpaperStep(old(State()), path, env, execOk)
    {
      if path.None? {
        Emit(Error(NoFilePath));
        return;
      }
      var imagePath := path.value;
      var previous := optCurrent;
      if previous == imagePath {
        return;
      }
      optCurrent := imagePath;
      currentWallpaperPath := imagePath;
      var ok := ApplyWallpaperWithChromash(imagePath, env, execOk);
      if ok {
        Emit(WallpaperSet(imagePath));
      } else {
        Emit(Error(WallpaperSettingFailed));
        optCurrent := previous;
        currentWallpaperPath := previous;
      }
    }

    method SetRandomWallpaper(random: real, env: Env, execOk: bool)
      requires 0.0 <= random < 1.0
      modifies this
      ensures State() == SetRandomStep(old(State()), random, env, execOk)
    {
      if |wallpapers| == 0 {
        Emit(Error(NoWallpapers));
        return;
      }
      var pick := PickRandom(wallpapers, optCurrent, random);
      SetWallpaper(Some(pick.path), env, execOk);
    }

    method ApplyManualThemeSettings(env: Env, execOk: bool)
      modifies this
      ensures State() == ApplyManualStep(old(State()), env, execOk)
    {
      if !env.chromashExecutable || currentWallpaperPath == "" {
        return;
      }
      Emit(Exec(WallpaperCommand(chromash, currentWallpaperPath, manualMode, manualScheme)));
      if execOk {
        SendThemeNotification(env, currentWallpaperPath, ManualAnalysis(manualMode, manualScheme));
      } else {
        Emit(Error(ManualThemeFailed));
      }
    }

    method SetManualMode(mode: ThemeMode, env: Env, execOk: bool)
      modifies this
      ensures State() == SetManualModeStep(old(State()), mode, env, execOk)
    {
      if manualMode != mode {
        manualMode := mode;
        Emit(ThemeSettingsChanged(mode, manualScheme));
        if currentWallpaperPath != "" {
          ApplyManualThemeSettings(env, execOk);
        }
      }
    }

    method SetManualScheme(scheme: ThemeScheme, env: Env, execOk: bool)
      modifies this
      ensures State() == SetManualSchemeStep(old(State()), scheme, env, execOk)
    {
      if manualScheme != scheme {
        manualScheme := scheme;
        Emit(ThemeSettingsChanged(manualMode, scheme));
        if currentWallpaperPath != "" {
          ApplyManualThemeSettings(env, execOk);
        }
      }
    }

    method CacheThemeAnalysis(path: string, a: ThemeProperties, now: int)
      requires Valid() && now != 0
      modifies this
      ensures State() == CacheStep(old(State()), path, a, now)
      ensures Valid()
    {
      themeCache := Put(themeCache, path, ToCached(a, now));
      if |themeCache| > maxCacheSize {
        deferred := deferred + [CleanupCache];
      }
      deferred := deferred + [SaveCache];
    }

    method FireThemeTimer(env: Env, output: Option<string>, now: int, hour: int)
      requires Valid() && now > 0
      modifies this
      ensures State() == FireThemeTimerStep(old(State()), env, output, now, hour)
      ensures Valid()
    {
      if pendingTheme.None? {
        return;
      }
      var imagePath := pendingTheme.value;
      pendingTheme := None;
      if !env.chromashExecutable {
        return;
      }
      Emit(Exec(ThemeCommand(chromash)));
      if output.None? {
        Emit(Error(ThemeApplicationFailed));
        return;
      }
      ApplyThemeReport(imagePath, output.value, now, hour);
    }

    /** The part of `applyThemeWithManualOverrides` after the report arrived. */
    method ApplyThemeReport(imagePath: string, output: string, now: int, hour: int)
      requires Valid() && now > 0
      modifies this
      ensures var s := CacheStep(old(State()), imagePath, ParseOutput(output), now);
        State() == s.(deferred := s.deferred + [Notify(imagePath, Merge(ParseOutput(output), manualMode, manualScheme))])
      ensures Valid()
    {
      var parsed := ParseChromashThemeOutput(output);
      var auto := parsed.GetOr(FallbackColorAnalysis(imagePath, hour));
      CacheThemeAnalysis(imagePath, auto, now);
      var final := ThemeProperties(
        auto.tone, auto.chroma,
        if manualMode == AutoMode then auto.mode else manualMode,
        if manualScheme == AutoScheme then auto.scheme else manualScheme);
      deferred := deferred + [Notify(imagePath, final)];
    }

    /** `cleanupThemeCache`: sort oldest first, then delete the first `size - maxSize` keys. */
    method CleanupThemeCache()
      requires Valid()
      modifies this
      ensures State() == old(State()).(cache := Cleanup(old(themeCache), maxCacheSize))
      ensures Valid()
    {
      if |themeCache| <= maxCacheSize {
        return;
      }
      CleanupKeepsEntries(themeCache, maxCacheSize);
      var cache := DeleteOldest(themeCache, maxCacheSize);
      themeCache := cache;
    }

    method RunDeferred(env: Env)
      requires Valid()
      modifies this
      ensures State() == RunDeferredStep(old(State()), env)
      ensures Valid()
    {
      if deferred == [] {
        return;
      }
      var task := deferred[0];
      deferred := deferred[1..];
      match task
      case CleanupCache => CleanupThemeCache();
      case SaveCache => optCache := Some(Snapshot(themeCache));
      case Notify(p, a) => SendThemeNotification(env, p, a);
    }

    method ClearThemeCache()
      modifies this
      ensures State() == ClearStep(old(State()))
      ensures Valid()
    {
      themeCache := [];
      optCache := Some([]);
    }

    method Dispose()
      modifies this
      ensures State() == DisposeStep(old(State()))
      ensures Valid()
    {
      pendingTheme := None;
      watching := false;
      themeCache := [];
    }
  }

  /**
   * The deletion loop of `cleanupThemeCache`: sort the entries oldest first and
   * delete the keys of the first `|c| - maxSize` of them, one at a time.
   */
  method DeleteOldest(c: Cache, maxSize: nat) returns (cache: Cache)
    requires UniqueKeys(c) && |c| > maxSize
    ensures cache == Cleanup(c, maxSize)
  {
    var entries := OldestFirst(c);
    var toRemove := |c| - maxSize;
    cache := c;
    for i := 0 to toRemove
      invariant UniqueKeys(cache)
      invariant cache == DeleteKeys(c, KeysOf(entries[..i]))
    {
      DeleteKeysStep(c, entries, i);
      cache := Delete(cache, entries[i].key);
    }
    CleanupUnfold(c, maxSize);
  }

  /** Cleanup only drops entries, so truthy timestamps stay truthy. */
  lemma CleanupKeepsEntries(c: Cache, maxSize: nat)
    requires UniqueKeys(c) && forall i :: 0 <= i < |c| ==> c[i].value.timestamp != 0
    ensures forall i :: 0 <= i < |Cleanup(c, maxSize)| ==> Cleanup(c, maxSize)[i].value.timestamp != 0
  {
    if |c| > maxSize {
      CleanupEvictsOldest(c, maxSize);
      var r := Cleanup(c, maxSize);
      forall i | 0 <= i < |r| ensures r[i].value.timestamp != 0 {
        assert r[i] in r;
      }
    }
  }

  // ---------------------------------------------------------------------------
  // Properties of the transitions
  // ---------------------------------------------------------------------------

  /** Choosing the wallpaper that is already current does nothing at all. */
  lemma SetWallpaperSameIsNoop(s: StoreState, env: Env, execOk: bool)
    ensures SetWallpaperStep(s, Some(s.optCurrent), env, execOk) == s
  {
  }

  /**
   * A new path is committed exactly when the colour tool is executable and its command
   * succeeds; otherwise the option is untouched, the displayed path is rolled back to
   * the option, no analysis is scheduled and the last signal is the error.
   */
  lemma SetWallpaperCommitsIffApplied(s: StoreState, p: string, env: Env, execOk: bool)
    requires p != s.optCurrent
    ensures var r := SetWallpaperStep(s, Some(p), env, execOk);
      && (r.optCurrent == p <==> env.chromashExecutable && execOk)
      && (r.events[|r.events| - 1] == WallpaperSet(p) <==> env.chromashExecutable && execOk)
      && (!(env.chromashExecutable && execOk) ==>
            && r.optCurrent == s.optCurrent
            && r.currentWallpaperPath == s.optCurrent
            && r.pendingTheme == s.pendingTheme
            && r.events[|r.events| - 1] == Error(WallpaperSettingFailed))
      && (env.chromashExecutable && execOk ==>
            r.currentWallpaperPath == p && r.pendingTheme == Some(p))
      && r.cache == s.cache && r.wallpapers == s.wallpapers && r.deferred == s.deferred
  {
  }

  /** Debounce: two wallpaper changes in a row leave one pending analysis, for the later path. */
  lemma DebounceLatestWins(s: StoreState, p1: string, p2: string, env: Env, ok1: bool, ok2: bool)
    requires p1 != s.optCurrent
    requires env.chromashExecutable && ok2
    ensures var t := SetWallpaperStep(s, Some(p1), env, ok1);
      p2 != t.optCurrent ==> SetWallpaperStep(t, Some(p2), env, ok2).pendingTheme == Some(p2)
  {
  }

  /** A timer that was never armed, or was cancelled, does nothing when it would fire. */
  lemma FireUnarmedIsNoop(s: StoreState, env: Env, output: Option<string>, now: int, hour: int)
    requires s.pendingTheme.None?
    ensures FireThemeTimerStep(s, env, output, now, hour) == s
  {
  }

  /**
   * Firing disarms the timer; on a report it caches the automatic analysis (not the
   * overridden one) under the armed path and queues the notification with the overrides.
   */
  lemma FireCachesAutomaticAnalysis(s: StoreState, env: Env, o: string, now: int, hour: int)
    requires s.pendingTheme.Some? && env.chromashExecutable
    ensures var r := FireThemeTimerStep(s, env, Some(o), now, hour);
      && r.pendingTheme.None?
      && Get(r.cache, s.pendingTheme.value) == Some(ToCached(ParseOutput(o), now))
      && r.deferred[|r.deferred| - 1] == Notify(s.pendingTheme.value, Merge(ParseOutput(o), s.manualMode, s.manualScheme))
      && r.deferred[|r.deferred| - 2] == SaveCache
  {
    PutLaws(s.cache, s.pendingTheme.value, ToCached(ParseOutput(o), now));
  }

  /** Disposal cancels the timer and the directory subscription. */
  lemma DisposeStopsEverything(s: StoreState, env: Env, output: Option<string>, now: int, hour: int,
                               dir: string, root: Option<Node>)
    ensures var d := DisposeStep(s);
      && FireThemeTimerStep(d, env, output, now, hour) == d
      && DirChangedStep(d, dir, root) == d.(wallpaperDir := dir)
  {
  }

  /** A random pick from an empty list only reports the error. */
  lemma SetRandomEmpty(s: StoreState, random: real, env: Env, execOk: bool)
    requires 0.0 <= random < 1.0 && s.wallpapers == []
    ensures SetRandomStep(s, random, env, execOk) == s.(events := s.events + [Error(NoWallpapers)])
  {
  }

  /** When another wallpaper exists and the command succeeds, a random pick changes the wallpaper. */
  lemma SetRandomChanges(s: StoreState, random: real, env: Env)
    requires 0.0 <= random < 1.0 && env.chromashExecutable
    requires exists it :: it in s.wallpapers && it.path != s.optCurrent
    ensures var r := SetRandomStep(s, random, env, true);
      && r.optCurrent != s.optCurrent
      && exists it :: it in s.wallpapers && it.path == r.optCurrent
  {
    PickRandomAvoidsCurrent(s.wallpapers, s.optCurrent, random);
  }

  /** Caching an analysis stores it under its path and always queues a save, after a cleanup when over the limit. */
  lemma CacheStepQueues(s: StoreState, path: string, a: ThemeProperties, now: int)
    requires ValidState(s) && now != 0
    ensures var r := CacheStep(s, path, a, now);
      && ValidState(r)
      && Get(r.cache, path) == Some(ToCached(a, now))
      && (forall k :: k != path ==> Get(r.cache, k) == Get(s.cache, k))
      && r.deferred[..|s.deferred|] == s.deferred
      && r.deferred[|r.deferred| - 1] == SaveCache
      && (|r.deferred| == |s.deferred| + 2 <==> |r.cache| > s.maxCacheSize)
  {
    PutKeepsStamps(s.cache, path, ToCached(a, now));
    PutLaws(s.cache, path, ToCached(a, now));
  }

  /** A queued cleanup leaves at most `maxCacheSize` entries, all of them from the old cache. */
  lemma RunCleanupBounds(s: StoreState, env: Env)
    requires ValidState(s) && s.deferred != [] && s.deferred[0] == CleanupCache
    ensures var r := RunDeferredStep(s, env);
      && |r.cache| == (if |s.cache| <= s.maxCacheSize then |s.cache| else s.maxCacheSize)
      && (forall e :: e in r.cache ==> e in s.cache)
      && r.deferred == s.deferred[1..]
  {
    if |s.cache| > s.maxCacheSize {
      CleanupEvictsOldest(s.cache, s.maxCacheSize);
    }
  }

  /** What a queued save writes, a restart reads back unchanged. */
  lemma SaveThenRestart(s: StoreState, env: Env, includeHidden: bool, home: string, dir: string,
                        current: string, maxCacheSize: nat, root: Option<Node>)
    requires ValidState(s) && s.deferred != [] && s.deferred[0] == SaveCache
    ensures var t := RunDeferredStep(s, env);
      var i := Initial(includeHidden, home, dir, current, t.optCache, maxCacheSize, root);
      && i.cache == s.cache
      && Error(ThemeCacheLoadFailed) !in i.events
  {
    ReloadSnapshot(s.cache);
  }

  /** Selecting the mode or scheme already in force does nothing. */
  lemma ManualSameIsNoop(s: StoreState, env: Env, execOk: bool)
    ensures SetManualModeStep(s, s.manualMode, env, execOk) == s
    ensures SetManualSchemeStep(s, s.manualScheme, env, execOk) == s
  {
  }

  /**
   * A new mode is recorded and announced; it is applied to the current wallpaper exactly
   * when there is one and the colour tool is executable.
   */
  lemma SetManualModeApplies(s: StoreState, mode: ThemeMode, env: Env, execOk: bool)
    requires mode != s.manualMode
    ensures var r := SetManualModeStep(s, mode, env, execOk);
      && r.manualMode == mode && r.manualScheme == s.manualScheme
      && r.events[|s.events|] == ThemeSettingsChanged(mode, s.manualScheme)
      && ((|r.events| > |s.events| + 1) <==> (s.currentWallpaperPath != "" && env.chromashExecutable))
      && r.optCurrent == s.optCurrent && r.cache == s.cache && r.pendingTheme == s.pendingTheme
  {
  }

  /** Every transition keeps the cache invariant. */
  lemma StepsKeepValid(s: StoreState, env: Env, path: Option<string>, execOk: bool, output: Option<string>,
                       now: int, hour: int)
    requires ValidState(s) && now > 0
    ensures ValidState(LoadCacheStep(s))
    ensures ValidState(SetWallpaperStep(s, path, env, execOk))
    ensures ValidState(FireThemeTimerStep(s, env, output, now, hour))
    ensures ValidState(RunDeferredStep(s, env))
    ensures ValidState(ClearStep(s)) && ValidState(DisposeStep(s))
  {
    if s.pendingTheme.Some? && env.chromashExecutable && output.Some? {
      var s1 := WithEvent(s.(pendingTheme := None), Exec(ThemeCommand(s.chromash)));
      CacheStepQueues(s1, s.pendingTheme.value, ParseOutput(output.value), now);
    }
    if s.deferred != [] && s.deferred[0] == CleanupCache {
      CleanupKeepsEntries(s.cache, s.maxCacheSize);
    }
    LoadCacheValid(s);
  }

  lemma LoadCacheValid(s: StoreState)
    requires ValidState(s)
    ensures ValidState(LoadCacheStep(s))
  {
    if s.optCache.Some? {
      ReloadKeepsStamps(s.cache, s.optCache.value);
    }
  }

  /** Setting an entry with a truthy timestamp keeps a cache stamped. */
  lemma PutKeepsStamps(c: Cache, k: string, v: CachedThemeEntry)
    requires Stamped(c) && v.timestamp != 0
    ensures Stamped(Put(c, k, v))
  {
    var r := Put(c, k, v);
    forall i | 0 <= i < |r| ensures r[i].value.timestamp != 0 {
      assert Find(r, r[i].key) == i;
      if r[i].key != k {
        assert Get(r, r[i].key) == Get(c, r[i].key);
        assert c[Find(c, r[i].key)].value == r[i].value;
      }
    }
  }

  /** Reloading from persisted entries keeps a cache stamped: only truthy timestamps are revived. */
  lemma {:induction false} ReloadKeepsStamps(c: Cache, stored: seq<Entry<PersistedValue>>)
    requires Stamped(c)
    ensures Stamped(Reload(c, stored).0)
    decreases |stored|
  {
    if stored != [] && !stored[0].value.PNull? {
      if Truthy(stored[0].value) {
        PutKeepsStamps(c, stored[0].key, Revived(stored[0]).value);
        ReloadKeepsStamps(Put(c, stored[0].key, Revived(stored[0]).value), stored[1..]);
      } else {
        ReloadKeepsStamps(c, stored[1..]);
      }
    }
  }

  // ---------------------------------------------------------------------------
  // The `error` signal as written: the class declares only wallpapers-changed,
  // wallpaper-set and theme-settings-changed, and GJS throws on `emit` of any
  // other name. The steps above treat `error` as declared; the two members below
  // follow the code where the throw changes the state.
  // ---------------------------------------------------------------------------

  /**
   * `setWallpaper` as written: the state once its promise settles, and whether it
   * rejected. The new path is stored before the command runs, and the throwing `emit`
   * in the catch skips the rollback.
   */
  function SetWallpaperAsWritten(s: StoreState, path: Option<string>, env: Env, execOk: bool): (StoreState, bool) {
    match path
    case None => (s, true)
    case Some(p) =>
      if p == s.optCurrent then (s, false)
      else
        var s1 := s.(optCurrent := p, currentWallpaperPath := p);
        if !env.chromashExecutable then (s1, true)
        else
          var cmd := WallpaperCommand(s.chromash, p, s.manualMode, s.manualScheme);
          if !execOk then (WithEvent(s1, Exec(cmd)), true)
          else (s1.(pendingTheme := Some(p), events := s.events + [Exec(cmd), WallpaperSet(p)]), false)
  }

  /**
   * As written, a failed change rejects and leaves the new path in the option and on the
   * store, where the intended step rolls both back; a change that succeeds agrees with it.
   */
  lemma SetWallpaperAsWrittenSkipsRollback(s: StoreState, p: string, env: Env, execOk: bool)
    requires p != s.optCurrent
    ensures var (w, threw) := SetWallpaperAsWritten(s, Some(p), env, execOk);
      var r := SetWallpaperStep(s, Some(p), env, execOk);
      && (threw <==> !(env.chromashExecutable && execOk))
      && (threw ==> w.optCurrent == p && w.currentWallpaperPath == p
                    && r.optCurrent == s.optCurrent && r.currentWallpaperPath == s.optCurrent)
      && (!threw ==> w == r)
  {
  }

  /**
   * `loadThemeCache` as written: `None` when its catch is reached, since the throwing
   * `emit` there escapes the constructor and no store is built.
   */
  function LoadCacheAsWritten(s: StoreState): Option<StoreState> {
    match s.optCache
    case None => None
    case Some(stored) =>
      var (c, failed) := Reload(s.cache, stored);
      if failed then None else Some(s.(cache := c))
  }

  /** The constructor throws exactly when the intended load signals its error; otherwise both agree. */
  lemma LoadCacheAsWrittenThrows(s: StoreState)
    ensures LoadCacheAsWritten(s).None? <==> LoadCacheStep(s).events == s.events + [Error(ThemeCacheLoadFailed)]
    ensures LoadCacheAsWritten(s).Some? ==> LoadCacheAsWritten(s).value == LoadCacheStep(s)
  {
    if s.optCache.Some? && !Reload(s.cache, s.optCache.value).1 {
      assert LoadCacheStep(s).events == s.events;
    }
  }
}

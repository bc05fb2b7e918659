/**
 * The window switcher: the mapped, visible Hyprland clients sorted by workspace and
 * position, the subset matching the query, and a cyclic selection index. The client
 * list `hyprctl clients -j` reports (None when the command or the JSON parse fails),
 * the results of the two dispatch commands and `Date.now()` are inputs (`SwitchEnv`);
 * dispatched argument vectors are logged in `commands`.
 */
module WindowSwitcher {
  import opened Wrappers
  import opened JsStrings
  import opened Seqs
  import opened Sorting

  /** One element of the `hyprctl clients -j` array; an empty string stands for a missing or empty field. */
  datatype Client = Client(
    address: string, title: string, initialTitle: string, windowClass: string, initialClass: string,
    workspaceId: int, workspaceName: string, monitor: int, fullscreen: bool, floating: bool,
    at: (int, int), size: (int, int), mapped: bool, hidden: bool)

  datatype WindowInfo = WindowInfo(
    address: string, title: string, windowClass: string, workspaceId: int, workspaceName: string,
    monitor: int, fullscreen: bool, floating: bool, at: (int, int), size: (int, int))

  datatype SwitchEnv = SwitchEnv(
    clients: Option<seq<Client>>,
    workspaceOk: bool,   // `hyprctl dispatch workspace …` succeeds
    focusOk: bool,       // `hyprctl dispatch focuswindow …` succeeds
    now: int)            // Date.now()

  const KeyEscape := 65307
  const KeyReturn := 65293
  const KeyTab := 65289
  const KeyLeftTab := 65056
  const KeyUp := 65362
  const KeyDown := 65364

  /** `a || b || fallback` on strings, where the empty string is falsy. */
  function OrElse(a: string, b: string, fallback: string): (r: string)
    ensures a != "" ==> r == a
    ensures a == "" && b != "" ==> r == b
    ensures a == "" && b == "" ==> r == fallback
  {
    if a != "" then a else if b != "" then b else fallback
  }

  predicate Shown(c: Client) {
    c.mapped && !c.hidden
  }

  function ToWindow(c: Client): (w: WindowInfo)
    ensures w.title != "" && w.windowClass != ""
  {
    WindowInfo(c.address, OrElse(c.title, c.initialTitle, "Untitled"), OrElse(c.windowClass, c.initialClass, "Unknown"),
               c.workspaceId, c.workspaceName, c.monitor, c.fullscreen, c.floating, c.at, c.size)
  }

  function Mapped(cs: seq<Client>): (ws: seq<WindowInfo>)
    ensures |ws| == |cs|
    ensures forall i :: 0 <= i < |cs| ==> ws[i] == ToWindow(cs[i])
  {
    seq(|cs|, i requires 0 <= i < |cs| => ToWindow(cs[i]))
  }

  /** The comparator: workspace id, then x position. */
  function Position(w: WindowInfo): (int, int) {
    (w.workspaceId, w.at.0)
  }

  /** The `load` pipeline: filter, map, sort. */
  function Windows(clients: seq<Client>): seq<WindowInfo> {
    SortBy(Mapped(Filter(clients, Shown)), Position)
  }

  /**
   * The windows are the shown clients, with their title and class defaulted, ordered by
   * workspace and then left to right; each comes from a client that is mapped and not hidden.
   */
  lemma WindowsLaws(clients: seq<Client>)
    ensures var ws := Windows(clients);
      && SortedBy(ws, Position)
      && multiset(ws) == multiset(Mapped(Filter(clients, Shown)))
      && forall w :: w in ws ==> exists c :: c in clients && c.mapped && !c.hidden && ToWindow(c) == w
  {
    var shown := Filter(clients, Shown);
    var ws := Windows(clients);
    forall w | w in ws ensures exists c :: c in clients && c.mapped && !c.hidden && ToWindow(c) == w {
      assert w in multiset(Mapped(shown));
      var i :| 0 <= i < |shown| && Mapped(shown)[i] == w;
      assert shown[i] in shown;
    }
  }

  datatype SwitchState = SwitchState(
    windows: seq<WindowInfo>,
    filtered: seq<WindowInfo>,
    index: nat,
    query: string,
    isVisible: bool,
    callbacks: seq<nat>,
    notified: seq<nat>,
    lastKeyboardAction: int,
    commands: seq<seq<string>>,
    hasFocusSearch: bool,
    focusRequests: nat)

  predicate Matches(w: WindowInfo, q: string) {
    Includes(ToLower(w.title), q) || Includes(ToLower(w.windowClass), q)
  }

  function TriggerStep(s: SwitchState): SwitchState {
    s.(notified := s.notified + s.callbacks)
  }

  /** The windows whose title or class contains the lowercased query `q`, in order. */
  function MatchingWindows(windows: seq<WindowInfo>, q: string): (r: seq<WindowInfo>)
    ensures Subseq(r, windows)
  {
    var keep := (w: WindowInfo) => Matches(w, q);
    FilterSubseq(windows, keep);
    Filter(windows, keep)
  }

  /** `filter` */
  function FilterStep(s: SwitchState): SwitchState {
    var q := ToLower(s.query);
    var f := MatchingWindows(s.windows, q);
    TriggerStep(s.(filtered := f, index := Min(s.index, Max(0, |f| - 1))))
  }

  /** `load` */
  function LoadStep(s: SwitchState, env: SwitchEnv): SwitchState {
    var s0 := s.(windows := [], filtered := [], commands := s.commands + [["hyprctl", "clients", "-j"]]);
    match env.clients
    case None => TriggerStep(s0)
    case Some(cs) => FilterStep(s0.(windows := Windows(cs)))
  }

  function HideStep(s: SwitchState): SwitchState {
    s.(isVisible := false, query := "", index := 0)
  }

  function ShowStep(s: SwitchState, env: SwitchEnv): SwitchState {
    LoadStep(s.(isVisible := true, lastKeyboardAction := 0), env)
  }

  /** `select(i)`: switch to the window's workspace, focus it, hide; a failing command stops the sequence. */
  function SelectStep(s: SwitchState, i: int, env: SwitchEnv): SwitchState {
    if !(0 <= i < |s.filtered|) then s
    else
      var w := s.filtered[i];
      var ws := ["hyprctl", "dispatch", "workspace", IntToString(w.workspaceId)];
      var fw := ["hyprctl", "dispatch", "focuswindow", "address:" + w.address];
      if !env.workspaceOk then s.(commands := s.commands + [ws])
      else if !env.focusOk then s.(commands := s.commands + [ws, fw])
      else HideStep(s.(commands := s.commands + [ws, fw]))
  }

  /** `next` and `down` */
  function NextStep(s: SwitchState, now: int): SwitchState {
    if |s.filtered| > 0 then
      TriggerStep(s.(index := (s.index + 1) % |s.filtered|, lastKeyboardAction := now))
    else s
  }

  /** `prev` and `up` */
  function PrevStep(s: SwitchState, now: int): SwitchState {
    if |s.filtered| > 0 then
      TriggerStep(s.(index := (s.index - 1 + |s.filtered|) % |s.filtered|, lastKeyboardAction := now))
    else s
  }

  function KeyStep(s: SwitchState, k: int, env: SwitchEnv): SwitchState {
    if k == KeyEscape then HideStep(s)
    else if k == KeyReturn then SelectStep(s, s.index, env)
    else if k == KeyTab || k == KeyDown then NextStep(s, env.now)
    else if k == KeyLeftTab || k == KeyUp then PrevStep(s, env.now)
    else if s.hasFocusSearch then s.(focusRequests := s.focusRequests + 1)
    else s
  }

  class WindowSwitcherManager {
    var windows: seq<WindowInfo>
    var filtered: seq<WindowInfo>
    var index: nat
    var query: string
    var isVisible: bool
    var updateCallbacks: seq<nat>
    var notified: seq<nat>
    var lastKeyboardAction: int
    var commands: seq<seq<string>>
    var hasFocusSearch: bool
    var focusRequests: nat

    function State(): SwitchState
      reads this
    {
      SwitchState(windows, filtered, index, query, isVisible, updateCallbacks, notified,
                  lastKeyboardAction, commands, hasFocusSearch, focusRequests)
    }

    constructor()
      ensures State() == SwitchState([], [], 0, "", false, [], [], 0, [], false, 0)
    {
      windows := [];
      filtered := [];
      index := 0;
      query := "";
      isVisible := false;
      updateCallbacks := [];
      notified := [];
      lastKeyboardAction := 0;
      commands := [];
      hasFocusSearch := false;
      focusRequests := 0;
    }

    method AddUpdateCallback(cb: nat)
      modifies this
      ensures State() == old(State()).(callbacks := old(updateCallbacks) + [cb])
    {
      updateCallbacks := updateCallbacks + [cb];
    }

    method TriggerUpdate()
      modifies this
      ensures State() == TriggerStep(old(State()))
    {
      notified := notified + updateCallbacks;
    }

    /** The `onUpdate` setter. */
    method SetOnUpdate(cb: Option<nat>)
      modifies this
      ensures State() == old(State()).(callbacks := if cb.Some? then [cb.value] else [])
    {
      if cb.Some? {
        updateCallbacks := [cb.value];
      } else {
        updateCallbacks := [];
      }
    }

    method SetFocusSearch(present: bool)
      modifies this
      ensures State() == old(State()).(hasFocusSearch := present)
    {
      hasFocusSearch := present;
    }

    method Load(env: SwitchEnv)
      modifies this
      ensures State() == LoadStep(old(State()), env)
    {
      windows := [];
      filtered := [];
      commands := commands + [["hyprctl", "clients", "-j"]];
      if env.clients.None? {
        TriggerUpdate();
        return;
      }
      windows := Windows(env.clients.value);
      Filter();
    }

    method Filter()
      modifies this
      ensures State() == FilterStep(old(State()))
    {
      var q := ToLower(query);
      filtered := Seqs.Filter(windows, (w: WindowInfo) => Matches(w, q));
      index := Min(index, Max(0, |filtered| - 1));
      TriggerUpdate();
    }

    method Select(i: int, env: SwitchEnv)
      modifies this
      ensures State() == SelectStep(old(State()), i, env)
    {
      if !(0 <= i < |filtered|) {
        return;
      }
      var w := filtered[i];
      commands := commands + [["hyprctl", "dispatch", "workspace", IntToString(w.workspaceId)]];
      if !env.workspaceOk {
        return;
      }
      commands := commands + [["hyprctl", "dispatch", "focuswindow", "address:" + w.address]];
      if !env.focusOk {
        return;
      }
      Hide();
    }

    method Show(env: SwitchEnv)
      modifies this
      ensures State() == ShowStep(old(State()), env)
    {
      isVisible := true;
      lastKeyboardAction := 0;
      Load(env);
    }

    method Hide()
      modifies this
      ensures State() == HideStep(old(State()))
    {
      isVisible := false;
      query := "";
      index := 0;
    }

    /** `next`, and `down`, which does the same. */
    method Next(now: int)
      modifies this
      ensures State() == NextStep(old(State()), now)
    {
      if |filtered| > 0 {
        index := (index + 1) % |filtered|;
        lastKeyboardAction := now;
        TriggerUpdate();
      }
    }

    /** `prev`, and `up`, which does the same. */
    method Prev(now: int)
      modifies this
      ensures State() == PrevStep(old(State()), now)
    {
      if |filtered| > 0 {
        index := (index - 1 + |filtered|) % |filtered|;
        lastKeyboardAction := now;
        TriggerUpdate();
      }
    }

    method Key(k: int, env: SwitchEnv)
      modifies this
      ensures State() == KeyStep(old(State()), k, env)
    {
      if k == KeyEscape {
        Hide();
      } else if k == KeyReturn {
        Select(index, env);
      } else if k == KeyTab || k == KeyDown {
        Next(env.now);
      } else if k == KeyLeftTab || k == KeyUp {
        Prev(env.now);
      } else if hasFocusSearch {
        focusRequests := focusRequests + 1;
      }
    }

    method Search(q: string)
      modifies this
      ensures State() == FilterStep(old(State()).(query := q))
    {
      query := q;
      Filter();
    }

    method ClearSearch()
      modifies this
      ensures State() == FilterStep(old(State()).(query := "", index := 0))
    {
      query := "";
      index := 0;
      Filter();
    }
  }

  // ---------------------------------------------------------------------------
  // Properties of the transitions
  // ---------------------------------------------------------------------------

  /** Filtering keeps exactly the windows whose title or class contains the query, in order, and clamps the index. */
  lemma FilterLaws(s: SwitchState)
    ensures var r := FilterStep(s);
      var q := ToLower(s.query);
      && (forall w :: w in r.filtered <==> w in s.windows && (Includes(ToLower(w.title), q) || Includes(ToLower(w.windowClass), q)))
      && Subseq(r.filtered, s.windows)
      && r.index <= Max(0, |r.filtered| - 1)
      && (s.index < |r.filtered| ==> r.index == s.index)
      && r.windows == s.windows
  {
  }

  /** A successful load holds the sorted shown clients and a clamped index; a failed one leaves both lists empty. */
  lemma LoadLaws(s: SwitchState, env: SwitchEnv)
    ensures var r := LoadStep(s, env);
      && (env.clients.None? ==> r.windows == [] && r.filtered == [])
      && (env.clients.Some? ==> r.windows == Windows(env.clients.value) && Subseq(r.filtered, r.windows)
                                && r.index <= Max(0, |r.filtered| - 1))
  {
  }

  /** One step forward on a cycle of `n` positions. */
  lemma ModNext(i: int, n: int)
    requires 0 <= i < n
    ensures (i + 1) % n == if i == n - 1 then 0 else i + 1
  {
    if i == n - 1 {
      assert i + 1 == n * 1 + 0;
    } else {
      assert i + 1 == n * 0 + (i + 1);
    }
  }

  /** One step back on a cycle of `n` positions, from a position no further than `n`. */
  lemma ModPrev(i: int, n: int)
    requires 0 <= i <= n && n > 0
    ensures (i - 1 + n) % n == if i == 0 then n - 1 else i - 1
  {
    if i == 0 {
      assert i - 1 + n == n * 0 + (n - 1);
    } else {
      assert i - 1 + n == n * 1 + (i - 1);
    }
  }

  /**
   * On a non-empty list next moves to (i + 1) mod n and previous to (i - 1 + n) mod n,
   * both staying inside the list and leaving it unchanged; on an empty list neither does anything.
   */
  lemma CycleLaws(s: SwitchState, now: int)
    ensures |s.filtered| == 0 ==> NextStep(s, now) == s && PrevStep(s, now) == s
    ensures |s.filtered| > 0 ==>
      && NextStep(s, now).index < |s.filtered| && PrevStep(s, now).index < |s.filtered|
      && NextStep(s, now).filtered == s.filtered && PrevStep(s, now).filtered == s.filtered
      && NextStep(s, now).lastKeyboardAction == now == PrevStep(s, now).lastKeyboardAction
    ensures s.index < |s.filtered| ==>
      NextStep(s, now).index == if s.index == |s.filtered| - 1 then 0 else s.index + 1
    ensures 0 < |s.filtered| && s.index <= |s.filtered| ==>
      PrevStep(s, now).index == if s.index == 0 then |s.filtered| - 1 else s.index - 1
  {
    var n := |s.filtered|;
    if s.index < n {
      ModNext(s.index, n);
    }
    if 0 < n && s.index <= n {
      ModPrev(s.index, n);
    }
  }

  /** The selection points at a window whenever there is one to point at. */
  predicate IndexInRange(s: SwitchState) {
    |s.filtered| > 0 ==> s.index < |s.filtered|
  }

  /** Filtering, and so loading, clamps the index into the new list whatever it was before. */
  lemma FilterLoadEndInRange(s: SwitchState, env: SwitchEnv)
    ensures IndexInRange(FilterStep(s)) && IndexInRange(LoadStep(s, env))
  {
    var s0 := s.(windows := [], filtered := [], commands := s.commands + [["hyprctl", "clients", "-j"]]);
    if env.clients.Some? {
      assert LoadStep(s, env) == FilterStep(s0.(windows := Windows(env.clients.value)));
    }
  }

  /** Next and previous keep the index in range. */
  lemma CycleKeepsIndexInRange(s: SwitchState, now: int)
    ensures IndexInRange(NextStep(s, now)) && IndexInRange(PrevStep(s, now))
  {
    CycleLaws(s, now);
  }

  /**
   * A fresh manager satisfies `IndexInRange` and every operation keeps it, so the
   * in-range premise of `CycleLaws` holds in every state the manager reaches.
   */
  lemma StepsKeepIndexInRange(s: SwitchState, env: SwitchEnv, i: int, k: int, q: string, cb: Option<nat>, c: nat, present: bool)
    requires IndexInRange(s)
    ensures IndexInRange(SwitchState([], [], 0, "", false, [], [], 0, [], false, 0))
    ensures IndexInRange(TriggerStep(s)) && IndexInRange(FilterStep(s)) && IndexInRange(LoadStep(s, env))
    ensures IndexInRange(HideStep(s)) && IndexInRange(ShowStep(s, env)) && IndexInRange(SelectStep(s, i, env))
    ensures IndexInRange(NextStep(s, env.now)) && IndexInRange(PrevStep(s, env.now)) && IndexInRange(KeyStep(s, k, env))
    ensures IndexInRange(FilterStep(s.(query := q))) && IndexInRange(FilterStep(s.(query := "", index := 0)))
    ensures IndexInRange(s.(callbacks := if cb.Some? then [cb.value] else []))
    ensures IndexInRange(s.(callbacks := s.callbacks + [c])) && IndexInRange(s.(hasFocusSearch := present))
  {
    FilterLoadEndInRange(s, env);
    FilterLoadEndInRange(s.(isVisible := true, lastKeyboardAction := 0), env);
    FilterLoadEndInRange(s.(query := q), env);
    FilterLoadEndInRange(s.(query := "", index := 0), env);
    CycleKeepsIndexInRange(s, env.now);
    SelectKeyKeepIndexInRange(s, i, k, env);
  }

  /** Selecting, whether it fails part way or hides, and every key keep the index in range. */
  lemma SelectKeyKeepIndexInRange(s: SwitchState, i: int, k: int, env: SwitchEnv)
    requires IndexInRange(s)
    ensures IndexInRange(SelectStep(s, i, env)) && IndexInRange(KeyStep(s, k, env))
  {
    CycleKeepsIndexInRange(s, env.now);
  }

  /** Going forward and then back, or back and then forward, returns to an index that was in range. */
  lemma PrevAfterNext(s: SwitchState, now1: int, now2: int)
    requires IndexInRange(s)
    ensures PrevStep(NextStep(s, now1), now2).index == s.index
    ensures NextStep(PrevStep(s, now1), now2).index == s.index
  {
    var n := |s.filtered|;
    CycleLaws(s, now1);
    CycleLaws(NextStep(s, now1), now2);
    CycleLaws(PrevStep(s, now1), now2);
  }

  /** The key table: Escape hides, Return selects, Tab and Down go forward, Shift+Tab and Up go back. */
  lemma KeyDispatch(s: SwitchState, env: SwitchEnv)
    ensures KeyStep(s, KeyEscape, env) == HideStep(s)
    ensures KeyStep(s, KeyReturn, env) == SelectStep(s, s.index, env)
    ensures KeyStep(s, KeyTab, env) == NextStep(s, env.now) == KeyStep(s, KeyDown, env)
    ensures KeyStep(s, KeyLeftTab, env) == PrevStep(s, env.now) == KeyStep(s, KeyUp, env)
  {
  }

  /** Hiding clears the query and goes to the top; showing clears the keyboard timestamp; selecting nothing does nothing. */
  lemma HideShowSelectLaws(s: SwitchState, env: SwitchEnv, i: int)
    ensures var h := HideStep(s); !h.isVisible && h.query == "" && h.index == 0 && h.windows == s.windows
    ensures ShowStep(s, env).isVisible && ShowStep(s, env).lastKeyboardAction == 0
    ensures !(0 <= i < |s.filtered|) ==> SelectStep(s, i, env) == s
  {
  }

  /** A selection that goes through dispatches the workspace switch and then the focus, and hides. */
  lemma SelectDispatches(s: SwitchState, i: int, env: SwitchEnv)
    requires 0 <= i < |s.filtered| && env.workspaceOk && env.focusOk
    ensures var r := SelectStep(s, i, env);
      && r.commands == s.commands + [["hyprctl", "dispatch", "workspace", IntToString(s.filtered[i].workspaceId)],
                                     ["hyprctl", "dispatch", "focuswindow", "address:" + s.filtered[i].address]]
      && !r.isVisible && r.index == 0
  {
  }
}

/**
 * The dock: pinned application buttons that launch, focus, switch to or minimise their
 * application, their CSS classes, and the auto-hide behaviour of the dock itself.
 * Hyprland's client list, focused workspace and focused client are parameters; the
 * `hyprctl` command lines a click runs are logged, and which of them fails, if any, is
 * an input. Timers are named by the handles `setTimeout` returns and fire as explicit steps.
 */
module Dock {
  import opened Wrappers
  import opened JsStrings
  import opened Seqs

  datatype PinnedApp = PinnedApp(name: string, icon: string, appClass: string)

  datatype Client = Client(clientClass: string, address: string, workspaceId: int)

  /** `Dock` renders nothing when it is disabled or the bar sits at the bottom. */
  function DockShown(enabled: bool, barPosition: string): (r: bool)
    ensures !r <==> !enabled || barPosition == "bottom"
  {
    enabled && barPosition != "bottom"
  }

  /** A client of the pinned application: the classes agree ignoring case. */
  predicate SameApp(c: Client, app: PinnedApp) {
    ToLower(c.clientClass) == ToLower(app.appClass)
  }

  function ExecCommand(app: PinnedApp): string {
    "hyprctl dispatch exec " + ToLower(app.appClass)
  }

  function WorkspaceCommand(id: int): string {
    "hyprctl dispatch workspace " + IntToString(id)
  }

  function FocusCommand(address: string): string {
    "hyprctl dispatch focuswindow address:" + address
  }

  function MinimizeCommand(address: string): string {
    "hyprctl dispatch movetoworkspacesilent special:minimized,address:" + address
  }

  /** What a click will do: start the launch animation or not, and the commands, in order. */
  datatype ClickPlan = ClickPlan(launch: bool, commands: seq<string>)

  /**
   * The decision tree of `handleClick`: launch when no client runs the application;
   * otherwise, on another workspace switch there and focus, on this one minimise the
   * window if it is the focused one and focus it if not. No focused workspace counts as id -1.
   */
  function PlanClick(app: PinnedApp, clients: seq<Client>, focusedWorkspace: Option<int>, focused: Option<Client>): (p: ClickPlan)
    ensures p.launch <==> forall j :: 0 <= j < |clients| ==> !SameApp(clients[j], app)
    ensures p.launch ==> p.commands == [ExecCommand(app)]
    ensures !p.launch ==> 1 <= |p.commands| <= 2
  {
    var i := IndexWhere(clients, (c: Client) => SameApp(c, app));
    if i < 0 then ClickPlan(true, [ExecCommand(app)])
    else
      var c := clients[i];
      var current := if focusedWorkspace.Some? then focusedWorkspace.value else -1;
      if c.workspaceId == current then
        if focused.Some? && focused.value.address == c.address then ClickPlan(false, [MinimizeCommand(c.address)])
        else ClickPlan(false, [FocusCommand(c.address)])
      else ClickPlan(false, [WorkspaceCommand(c.workspaceId), FocusCommand(c.address)])
  }

  /** The window of the first matching client, on another workspace: switch there, then focus it. */
  lemma PlanOtherWorkspace(app: PinnedApp, clients: seq<Client>, ws: Option<int>, focused: Option<Client>, i: nat)
    requires i < |clients| && SameApp(clients[i], app) && forall j :: 0 <= j < i ==> !SameApp(clients[j], app)
    requires clients[i].workspaceId != ws.GetOr(-1)
    ensures PlanClick(app, clients, ws, focused) == ClickPlan(false, [WorkspaceCommand(clients[i].workspaceId), FocusCommand(clients[i].address)])
  {
    assert IndexWhere(clients, (c: Client) => SameApp(c, app)) == i;
  }

  /** On the current workspace: minimise the window when it has the focus, focus it otherwise. */
  lemma PlanSameWorkspace(app: PinnedApp, clients: seq<Client>, ws: Option<int>, focused: Option<Client>, i: nat)
    requires i < |clients| && SameApp(clients[i], app) && forall j :: 0 <= j < i ==> !SameApp(clients[j], app)
    requires clients[i].workspaceId == ws.GetOr(-1)
    ensures var isFocused := focused.Some? && focused.value.address == clients[i].address;
      PlanClick(app, clients, ws, focused) ==
        ClickPlan(false, [if isFocused then MinimizeCommand(clients[i].address) else FocusCommand(clients[i].address)])
  {
    assert IndexWhere(clients, (c: Client) => SameApp(c, app)) == i;
  }

  /** `cls.some(...)`: some client runs the application. */
  predicate IsRunning(app: PinnedApp, clients: seq<Client>) {
    exists j :: 0 <= j < |clients| && SameApp(clients[j], app)
  }

  /** The focused client belongs to the application; a focused client with an empty class never does. */
  predicate IsFocused(app: PinnedApp, focused: Option<Client>) {
    focused.Some? && focused.value.clientClass != "" && SameApp(focused.value, app)
  }

  /** `buttonClasses`: "dock-item", then "running", "active" and "launching" as their conditions hold. */
  function ButtonClasses(app: PinnedApp, clients: seq<Client>, focused: Option<Client>, launching: bool): (r: seq<string>)
    ensures |r| >= 1 && r[0] == "dock-item" && "dock-item" !in r[1..]
    ensures "running" in r <==> IsRunning(app, clients)
    ensures "active" in r <==> IsFocused(app, focused)
    ensures "launching" in r <==> launching
  {
    var running := IndexWhere(clients, (c: Client) => SameApp(c, app)) >= 0;
    var active := focused.Some? && focused.value.clientClass != "" && SameApp(focused.value, app);
    ["dock-item"] + (if running then ["running"] else []) + (if active then ["active"] else [])
      + (if launching then ["launching"] else [])
  }

  /** A button shows as running exactly when clicking it focuses rather than launches. */
  lemma RunningIffNoLaunch(app: PinnedApp, clients: seq<Client>, ws: Option<int>, focused: Option<Client>, launching: bool)
    ensures "running" in ButtonClasses(app, clients, focused, launching) <==> !PlanClick(app, clients, ws, focused).launch
  {
  }

  /** `dockClasses`: the container is hidden exactly when it is not revealed and auto-hide is on. */
  function DockClasses(revealed: bool, autoHide: bool): (r: seq<string>)
    ensures |r| >= 1 && r[0] == "dock"
    ensures "hidden" in r <==> !revealed && autoHide
  {
    ["dock"] + (if !revealed && autoHide then ["hidden"] else [])
  }

  // ---------------------------------------------------------------------------
  // A button's launch state
  // ---------------------------------------------------------------------------

  /**
   * The commands a click gets through: all of them, or up to and including the first
   * that fails (`failAt`, counted from 0), after which `handleClick` stops.
   */
  function Issued(commands: seq<string>, failAt: Option<nat>): (r: seq<string>)
    ensures failAt.None? || failAt.value >= |commands| ==> r == commands
    ensures failAt.Some? && failAt.value < |commands| ==> r == commands[..failAt.value + 1]
  {
    if failAt.Some? && failAt.value < |commands| then commands[..failAt.value + 1] else commands
  }

  datatype ButtonState = ButtonState(launching: bool, pendingResets: nat, dispatched: seq<string>)

  /** One click: a launch sets `launching` and arms its 600 ms reset; a failing command lands in `catch`, which clears it. */
  function ClickStep(s: ButtonState, plan: ClickPlan, failAt: Option<nat>): ButtonState {
    var s1 := if plan.launch then s.(launching := true, pendingResets := s.pendingResets + 1) else s;
    var failed := failAt.Some? && failAt.value < |plan.commands|;
    s1.(dispatched := s1.dispatched + Issued(plan.commands, failAt), launching := if failed then false else s1.launching)
  }

  /** The reset timer: `setIsLaunching(false)`. */
  function ResetFiresStep(s: ButtonState): ButtonState {
    if s.pendingResets == 0 then s else s.(launching := false, pendingResets := s.pendingResets - 1)
  }

  /**
   * A click dispatches the commands it got through after the earlier ones; a launch
   * that did not fail leaves the button launching until a reset fires, and any failure
   * leaves it not launching.
   */
  lemma ClickLaws(s: ButtonState, plan: ClickPlan, failAt: Option<nat>)
    ensures var r := ClickStep(s, plan, failAt);
      && r.dispatched[..|s.dispatched|] == s.dispatched
      && Subseq(r.dispatched[|s.dispatched|..], plan.commands)
      && (failAt.Some? && failAt.value < |plan.commands| ==> !r.launching)
      && (plan.launch && (failAt.None? || failAt.value >= |plan.commands|) ==> r.launching && r.pendingResets == s.pendingResets + 1)
      && (!plan.launch && (failAt.None? || failAt.value >= |plan.commands|) ==> r.launching == s.launching)
  {
    var r := ClickStep(s, plan, failAt);
    var ran := Issued(plan.commands, failAt);
    assert r.dispatched[|s.dispatched|..] == ran;
    assert ran == plan.commands[..|ran|];
    PrefixSubseq(plan.commands, |ran|);
  }

  class AppButton {
    const app: PinnedApp
    var launching: bool
    var pendingResets: nat
    var dispatched: seq<string>

    function State(): ButtonState
      reads this
    {
      ButtonState(launching, pendingResets, dispatched)
    }

    constructor(app: PinnedApp)
      ensures this.app == app && State() == ButtonState(false, 0, [])
    {
      this.app := app;
      launching := false;
      pendingResets := 0;
      dispatched := [];
    }

    /** `handleClick`, with the Hyprland state at the time of the click and the failing command, if any. */
    method HandleClick(clients: seq<Client>, focusedWorkspace: Option<int>, focused: Option<Client>, failAt: Option<nat>)
      modifies this
      ensures State() == ClickStep(old(State()), PlanClick(app, clients, focusedWorkspace, focused), failAt)
    {
      var plan := PlanClick(app, clients, focusedWorkspace, focused);
      if plan.launch {
        launching := true;
        pendingResets := pendingResets + 1;
      }
      dispatched := dispatched + Issued(plan.commands, failAt);
      if failAt.Some? && failAt.value < |plan.commands| {
        launching := false;
      }
    }

    /** The 600 ms timer armed by a launch. */
    method ResetFires()
      modifies this
      ensures State() == ResetFiresStep(old(State()))
    {
      if pendingResets > 0 {
        launching := false;
        pendingResets := pendingResets - 1;
      }
    }
  }

  // ---------------------------------------------------------------------------
  // Auto-hide
  // ---------------------------------------------------------------------------

  /** The dock's state cells, the hide timers armed and not yet fired or cleared, and the next timer handle. */
  datatype RevealState = RevealState(
    revealDock: bool, hoveredIndex: Option<nat>, hideTimeout: Option<nat>, pendingHides: set<nat>, nextHandle: nat)

  const InitialReveal := RevealState(true, None, None, {}, 0)

  /** Timer handles are drawn fresh: every armed or stored handle is below `nextHandle`. */
  predicate ValidReveal(s: RevealState) {
    && (forall h :: h in s.pendingHides ==> h < s.nextHandle)
    && (s.hideTimeout.Some? ==> s.hideTimeout.value < s.nextHandle)
  }

  /** `handleMouseEnter`: clear the stored hide timer, forget it, reveal. */
  function MouseEnterStep(s: RevealState): RevealState {
    var s1 := if s.hideTimeout.Some? then s.(pendingHides := s.pendingHides - {s.hideTimeout.value}, hideTimeout := None) else s;
    s1.(revealDock := true)
  }

  /** `handleMouseLeave`: with auto-hide, arm a 300 ms hide and store its handle (an earlier one is not cleared). */
  function MouseLeaveStep(s: RevealState, autoHide: bool): RevealState {
    if autoHide then
      s.(pendingHides := s.pendingHides + {s.nextHandle}, hideTimeout := Some(s.nextHandle), nextHandle := s.nextHandle + 1)
    else s
  }

  /** A hide timer fires: conceal the dock and forget the hovered button; the stored handle is left as it is. */
  function HideFiresStep(s: RevealState, h: nat): RevealState {
    if h in s.pendingHides then s.(pendingHides := s.pendingHides - {h}, revealDock := false, hoveredIndex := None)
    else s
  }

  /** A button's own enter and leave handlers: `setHoveredIndex(index)` and `setHoveredIndex(null)`. */
  function HoverStep(s: RevealState, index: Option<nat>): RevealState {
    s.(hoveredIndex := index)
  }

  datatype DockEvent = Enter | Leave | HideFires(handle: nat) | Hover(index: Option<nat>)

  /** The motion handlers are attached only when auto-hide is on. */
  function OnEvent(s: RevealState, autoHide: bool, e: DockEvent): RevealState {
    match e
    case Enter => if autoHide then MouseEnterStep(s) else s
    case Leave => if autoHide then MouseLeaveStep(s, autoHide) else s
    case HideFires(h) => HideFiresStep(s, h)
    case Hover(i) => HoverStep(s, i)
  }

  function Run(s: RevealState, autoHide: bool, events: seq<DockEvent>): RevealState
    decreases |events|
  {
    if events == [] then s else Run(OnEvent(s, autoHide, events[0]), autoHide, events[1..])
  }

  /** Entering reveals the dock and cancels the stored hide, which can then no longer fire. */
  lemma EnterCancels(s: RevealState)
    ensures var r := MouseEnterStep(s);
      && r.revealDock && r.hideTimeout.None?
      && (s.hideTimeout.Some? ==> s.hideTimeout.value !in r.pendingHides)
      && r.pendingHides <= s.pendingHides
  {
  }

  /** Every step keeps timer handles fresh. */
  lemma OnEventValid(s: RevealState, autoHide: bool, e: DockEvent)
    requires ValidReveal(s)
    ensures ValidReveal(OnEvent(s, autoHide, e))
  {
  }

  /** Without auto-hide no hide is ever armed, so the dock stays revealed whatever happens. */
  lemma {:induction false} NoAutoHideStaysRevealed(s: RevealState, events: seq<DockEvent>)
    requires s.revealDock && s.pendingHides == {}
    ensures Run(s, false, events).revealDock && Run(s, false, events).pendingHides == {}
    decreases |events|
  {
    if events != [] {
      NoAutoHideStaysRevealed(OnEvent(s, false, events[0]), events[1..]);
    }
  }

  /** Leaving and then coming back before the timer fires leaves the dock revealed and nothing pending from that leave. */
  lemma LeaveThenEnter(s: RevealState)
    requires ValidReveal(s) && s.pendingHides == {}
    ensures var r := Run(s, true, [Leave, Enter]);
      r.revealDock && r.pendingHides == {} && r.hideTimeout.None?
  {
    var s1 := OnEvent(s, true, Leave);
    assert Run(s, true, [Leave, Enter]) == Run(s1, true, [Enter]);
    assert Run(s1, true, [Enter]) == Run(OnEvent(s1, true, Enter), true, []);
  }

  class DockReveal {
    const autoHide: bool
    var revealDock: bool
    var hoveredIndex: Option<nat>
    var hideTimeout: Option<nat>
    var pendingHides: set<nat>
    var nextHandle: nat

    function State(): RevealState
      reads this
    {
      RevealState(revealDock, hoveredIndex, hideTimeout, pendingHides, nextHandle)
    }

    constructor(autoHide: bool)
      ensures this.autoHide == autoHide && State() == InitialReveal
    {
      this.autoHide := autoHide;
      revealDock := true;
      hoveredIndex := None;
      hideTimeout := None;
      pendingHides := {};
      nextHandle := 0;
    }

    method MouseEnter()
      modifies this
      ensures State() == MouseEnterStep(old(State()))
    {
      if hideTimeout.Some? {
        pendingHides := pendingHides - {hideTimeout.value};
        hideTimeout := None;
      }
      revealDock := true;
    }

    method MouseLeave()
      modifies this
      ensures State() == MouseLeaveStep(old(State()), autoHide)
    {
      if autoHide {
        var handle := nextHandle;
        nextHandle := nextHandle + 1;
        pendingHides := pendingHides + {handle};
        hideTimeout := Some(handle);
      }
    }

    method HideFires(h: nat)
      modifies this
      ensures State() == HideFiresStep(old(State()), h)
    {
      if h in pendingHides {
        pendingHides := pendingHides - {h};
        revealDock := false;
        hoveredIndex := None;
      }
    }

    method SetHoveredIndex(index: Option<nat>)
      modifies this
      ensures State() == HoverStep(old(State()), index)
    {
      hoveredIndex := index;
    }
  }
}

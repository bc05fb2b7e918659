/**
 * Which GDK monitor the shell's windows go on: the one whose connector carries the
 * name of Hyprland's focused monitor, else the first one. The monitor list GDK reports
 * and Hyprland's focused monitor (null before one is known) are parameters.
 */
module Monitors {
  import opened Wrappers
  import opened Seqs

  datatype HyprMonitor = HyprMonitor(name: string, width: int)

  /** A GDK monitor, identified by its connector name ("DP-1", "eDP-1", ...). */
  datatype GdkMonitor = GdkMonitor(connector: string)

  /** The loop's test: both monitors present and the names agree. */
  predicate SameOutput(focused: Option<HyprMonitor>, m: Option<GdkMonitor>) {
    focused.Some? && m.Some? && focused.value.name == m.value.connector
  }

  /** `hyprToGdk(focused)` over the list `app.get_monitors()` returns. */
  function HyprToGdk(focused: Option<HyprMonitor>, monitors: seq<Option<GdkMonitor>>): (r: Option<GdkMonitor>)
    ensures monitors == [] ==> r.None?
    ensures r.Some? ==> r in monitors
    ensures (exists j :: 0 <= j < |monitors| && SameOutput(focused, monitors[j])) ==> SameOutput(focused, r)
    ensures (forall j :: 0 <= j < |monitors| ==> !SameOutput(focused, monitors[j])) && monitors != [] ==> r == monitors[0]
  {
    if monitors == [] then None
    else
      var i := IndexWhere(monitors, m => SameOutput(focused, m));
      if i >= 0 then monitors[i] else monitors[0]
  }

  /** The match found is the first monitor on that output. */
  lemma HyprToGdkFirstMatch(focused: Option<HyprMonitor>, monitors: seq<Option<GdkMonitor>>, i: nat)
    requires i < |monitors| && SameOutput(focused, monitors[i])
    requires forall j :: 0 <= j < i ==> !SameOutput(focused, monitors[j])
    ensures HyprToGdk(focused, monitors) == monitors[i]
  {
    assert IndexWhere(monitors, m => SameOutput(focused, m)) == i;
  }

  /** The `gdkmonitor` binding: the lookup, else the first monitor (undefined on an empty list). */
  function GdkMonitorFor(focused: Option<HyprMonitor>, monitors: seq<Option<GdkMonitor>>): (r: Option<GdkMonitor>)
    ensures monitors == [] ==> r.None?
    ensures r.Some? ==> r in monitors
  {
    var m := HyprToGdk(focused, monitors);
    if m.Some? then m
    else if monitors == [] then None
    else monitors[0]
  }

  /** The binding's own fallback adds nothing: whenever the lookup yields null, so does the first monitor. */
  lemma GdkMonitorIsLookup(focused: Option<HyprMonitor>, monitors: seq<Option<GdkMonitor>>)
    ensures GdkMonitorFor(focused, monitors) == HyprToGdk(focused, monitors)
  {
  }

  const FallbackWidth := 1000

  /** The `currentMonitorWidth` binding: the focused monitor's width, 1000 while there is none. */
  function CurrentMonitorWidth(focused: Option<HyprMonitor>): (w: int)
    ensures focused.None? ==> w == FallbackWidth
    ensures focused.Some? ==> w == focused.value.width
  {
    if focused.Some? then focused.value.width else FallbackWidth
  }
}

/**
 * The sidebar's widget registry: one definition per widget id, in the table's key
 * order, each belonging to the "widgets" or the "settings" page. Components and
 * icons are carried as names; only the fields the sidebar's rules read matter here.
 */
module WidgetRegistry {
  import opened Wrappers
  import opened Seqs
  import opened OrderedMap

  datatype SidebarMode = WidgetsMode | SettingsMode

  datatype WidgetDefinition = WidgetDefinition(
    id: string, name: string, icon: string, description: string,
    separatorAfter: bool, canDisable: bool, mode: SidebarMode)

  /** `SIDEBAR_WIDGETS`, in its key order. */
  const SidebarWidgets: seq<Entry<WidgetDefinition>> := [
    Entry("clock", WidgetDefinition("clock", "Clock", "Schedule", "Time and date", true, false, WidgetsMode)),
    Entry("weather", WidgetDefinition("weather", "Weather", "Partly_Cloudy_Day", "Weather information", true, true, WidgetsMode)),
    Entry("hardware", WidgetDefinition("hardware", "System Monitor", "Memory", "CPU, RAM, GPU, Disk", true, true, WidgetsMode)),
    Entry("notes", WidgetDefinition("notes", "Notes", "Note", "Scratchpad", false, true, WidgetsMode)),
    Entry("settings", WidgetDefinition("settings", "Settings", "Settings_Applications", "Configuration panel", false, false, SettingsMode)),
    Entry("timer", WidgetDefinition("timer", "Timer", "Timer", "Timer", true, true, WidgetsMode)),
    Entry("updater", WidgetDefinition("updater", "Updater", "System_Update", "System updates", true, true, SettingsMode))
  ]

  /** The table's shape: seven distinct keys, each entry's `id` its own key, and who may be disabled or is a settings page. */
  lemma RegistryShape()
    ensures |SidebarWidgets| == 7 && UniqueKeys(SidebarWidgets)
    ensures forall k :: 0 <= k < |SidebarWidgets| ==> SidebarWidgets[k].value.id == SidebarWidgets[k].key
    ensures forall k :: 0 <= k < |SidebarWidgets| ==>
      (SidebarWidgets[k].value.mode == SettingsMode <==> SidebarWidgets[k].key in ["settings", "updater"])
    ensures forall k :: 0 <= k < |SidebarWidgets| ==>
      (!SidebarWidgets[k].value.canDisable <==> SidebarWidgets[k].key in ["clock", "settings"])
  {
  }

  /** `getAvailableWidgets()`: `Object.values`, in key order. */
  function AvailableWidgets(): (r: seq<WidgetDefinition>)
    ensures |r| == |SidebarWidgets| && forall k :: 0 <= k < |r| ==> r[k] == SidebarWidgets[k].value
  {
    seq(|SidebarWidgets|, k requires 0 <= k < |SidebarWidgets| => SidebarWidgets[k].value)
  }

  /** `isValidWidgetId(id)`, read as membership among the table's own keys. */
  predicate IsValidWidgetId(id: string) {
    HasKey(SidebarWidgets, id)
  }

  /** The valid ids are exactly the seven keys of the table. */
  lemma ValidWidgetIds(id: string)
    ensures IsValidWidgetId(id) <==> id in ["clock", "weather", "hardware", "notes", "settings", "timer", "updater"]
  {
    if id in ["clock", "weather", "hardware", "notes", "settings", "timer", "updater"] {
      var k :| 0 <= k < 7 && ["clock", "weather", "hardware", "notes", "settings", "timer", "updater"][k] == id;
      assert SidebarWidgets[k].key == id;
    }
  }

  /** `getWidgetById(id)`: the definition under that key, or undefined. */
  function GetWidgetById(id: string): (r: Option<WidgetDefinition>)
    ensures r.Some? <==> IsValidWidgetId(id)
    ensures r.Some? ==> r.value.id == id && Entry(id, r.value) in SidebarWidgets
  {
    RegistryShape();
    Get(SidebarWidgets, id)
  }

  /** `getWidgetsByMode(mode)`: the definitions of that page, in key order. */
  function WidgetsByMode(mode: SidebarMode): (r: seq<WidgetDefinition>)
    ensures forall w :: w in r <==> w in AvailableWidgets() && w.mode == mode
    ensures Subseq(r, AvailableWidgets())
  {
    var keep := (w: WidgetDefinition) => w.mode == mode;
    FilterSubseq(AvailableWidgets(), keep);
    Filter(AvailableWidgets(), keep)
  }

  /** The settings page holds exactly the settings and updater widgets; every other widget is on the widgets page. */
  lemma PagesOfRegistry(w: WidgetDefinition)
    ensures w in WidgetsByMode(SettingsMode) <==> w in AvailableWidgets() && (w.id == "settings" || w.id == "updater")
    ensures w in WidgetsByMode(WidgetsMode) <==> w in AvailableWidgets() && !(w.id == "settings" || w.id == "updater")
  {
    RegistryShape();
    var all := AvailableWidgets();
    if w in all {
      var k :| 0 <= k < |all| && all[k] == w;
      assert SidebarWidgets[k].value == w;
    }
  }
}

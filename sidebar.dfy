/**
 * The sidebar's widget lists: the configured widget order restricted to the enabled
 * widgets, and from that the widgets of the current page, without the clock (which
 * always sits on top). The two option values are parameters; `None` stands for an
 * option that is missing or unset, and any array, even an empty one, is taken as given.
 */
module Sidebar {
  import opened Wrappers
  import opened Seqs
  import opened OrderedMap
  import opened WidgetRegistry

  const DefaultWidgetOrder: seq<string> := ["clock", "weather", "hardware", "notes", "settings", "timer", "updater"]
  const DefaultEnabledWidgets: seq<string> := ["clock", "weather", "hardware", "notes", "settings", "timer", "updater"]

  /** `order.filter((id) => enabled.includes(id))`, with each option defaulted. */
  function FilteredIds(order: Option<seq<string>>, enabled: Option<seq<string>>): (r: seq<string>)
    ensures var o := order.GetOr(DefaultWidgetOrder); var e := enabled.GetOr(DefaultEnabledWidgets);
      && Subseq(r, o)
      && forall id :: id in r <==> id in o && id in e
  {
    var e := enabled.GetOr(DefaultEnabledWidgets);
    var keep := (id: string) => id in e;
    FilterSubseq(order.GetOr(DefaultWidgetOrder), keep);
    Filter(order.GetOr(DefaultWidgetOrder), keep)
  }

  /** The test of `updateWidgetsForMode`: never the clock, else a registered widget of this page. */
  predicate OnPage(id: string, mode: SidebarMode) {
    if id == "clock" then false
    else
      var w := GetWidgetById(id);
      w.Some? && w.value.mode == mode
  }

  /** The widgets of one page, in the order of the list they are taken from. */
  function ForMode(list: seq<string>, mode: SidebarMode): (r: seq<string>)
    ensures Subseq(r, list)
    ensures "clock" !in r
    ensures forall id :: id in r <==> id in list && id != "clock" && IsValidWidgetId(id) && GetWidgetById(id).value.mode == mode
  {
    var keep := (id: string) => OnPage(id, mode);
    FilterSubseq(list, keep);
    Filter(list, keep)
  }

  /** `showSeparator` for the widget at `index` of the page's list. */
  function ShowSeparator(forMode: seq<string>, index: nat): (r: bool)
    requires index < |forMode|
    ensures r ==> index < |forMode| - 1
    ensures r <==> index < |forMode| - 1 && GetWidgetById(forMode[index]).Some? && GetWidgetById(forMode[index]).value.separatorAfter
  {
    var w := GetWidgetById(forMode[index]);
    w.Some? && w.value.separatorAfter && index < |forMode| - 1
  }

  /** Each page's list is drawn from the enabled widgets in the configured order. */
  lemma PageListLaws(order: Option<seq<string>>, enabled: Option<seq<string>>, mode: SidebarMode)
    ensures var f := FilteredIds(order, enabled); var p := ForMode(f, mode);
      && Subseq(p, order.GetOr(DefaultWidgetOrder))
      && forall id :: id in p <==>
           id in order.GetOr(DefaultWidgetOrder) && id in enabled.GetOr(DefaultEnabledWidgets)
           && id != "clock" && IsValidWidgetId(id) && GetWidgetById(id).value.mode == mode
  {
    var f := FilteredIds(order, enabled);
    SubseqTrans(ForMode(f, mode), f, order.GetOr(DefaultWidgetOrder));
  }

  /** The last widget of a page is never followed by a separator. */
  lemma NoTrailingSeparator(forMode: seq<string>)
    requires forMode != []
    ensures !ShowSeparator(forMode, |forMode| - 1)
  {
  }

  /** The sidebar's state cells. */
  class SidebarPanel {
    var currentMode: SidebarMode
    var filteredWidgets: seq<string>
    var widgetsForCurrentMode: seq<string>

    /** The page list always follows from the filtered list and the page shown. */
    predicate Valid()
      reads this
    {
      widgetsForCurrentMode == ForMode(filteredWidgets, currentMode)
    }

    /** Building the sidebar starts on the widgets page and runs `updateFilteredWidgets` once. */
    constructor(order: Option<seq<string>>, enabled: Option<seq<string>>)
      ensures currentMode == WidgetsMode && filteredWidgets == FilteredIds(order, enabled)
      ensures Valid()
    {
      currentMode := WidgetsMode;
      filteredWidgets := [];
      widgetsForCurrentMode := [];
      new;
      UpdateFilteredWidgets(order, enabled);
    }

    /** `updateFilteredWidgets`, run whenever either option changes. */
    method UpdateFilteredWidgets(order: Option<seq<string>>, enabled: Option<seq<string>>)
      modifies this
      ensures currentMode == old(currentMode)
      ensures filteredWidgets == FilteredIds(order, enabled)
      ensures Valid()
    {
      var filtered := FilteredIds(order, enabled);
      filteredWidgets := filtered;
      UpdateWidgetsForMode(Some(filtered));
      assert widgetsForCurrentMode == ForMode(filtered, currentMode);
    }

    /** `updateWidgetsForMode(widgets?)`: the page list of the given list, or of the stored one. */
    method UpdateWidgetsForMode(widgets: Option<seq<string>>)
      modifies this
      ensures currentMode == old(currentMode) && filteredWidgets == old(filteredWidgets)
      ensures widgetsForCurrentMode == ForMode(widgets.GetOr(filteredWidgets), currentMode)
    {
      var list := widgets.GetOr(filteredWidgets);
      widgetsForCurrentMode := ForMode(list, currentMode);
    }

    /** A mode button's click: the page changes and its list is recomputed from the stored filtered list. */
    method SetCurrentMode(mode: SidebarMode)
      modifies this
      ensures currentMode == mode && filteredWidgets == old(filteredWidgets)
      ensures Valid()
    {
      currentMode := mode;
      UpdateWidgetsForMode(None);
    }
  }
}

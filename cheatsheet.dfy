/**
 * The cheat sheet overlay's two state cells: whether it is shown and which of its
 * tabs is selected. The keybind and element tables it displays are static data.
 */
module CheatSheet {
  import opened Seqs

  datatype CheatSheetTab = CheatSheetTab(icon: string, name: string)

  /** `TABS`. */
  const Tabs: seq<CheatSheetTab> := [CheatSheetTab("keyboard", "Keybinds"), CheatSheetTab("science", "Elements")]

  /** `Math.max(0, Math.min(index, TABS.length - 1))`. */
  function ClampTab(index: int): (r: int)
    ensures 0 <= r < |Tabs| && r <= 1
    ensures 0 <= index < |Tabs| ==> r == index
    ensures index < 0 ==> r == 0
    ensures index >= |Tabs| ==> r == |Tabs| - 1
  {
    Max(0, Min(index, |Tabs| - 1))
  }

  /** Selecting the tab just selected changes nothing. */
  lemma ClampTabIdempotent(index: int)
    ensures ClampTab(ClampTab(index)) == ClampTab(index)
  {
  }

  /** The tab table has exactly the Keybinds and Elements tabs, in that order. */
  lemma TabsShape()
    ensures |Tabs| == 2 && Tabs[0].name == "Keybinds" && Tabs[1].name == "Elements"
    ensures forall index :: ClampTab(index) in {0, 1}
  {
  }

  class CheatSheetService {
    var visible: bool
    var selectedTab: int

    /** The selected tab always names an entry of `TABS`. */
    predicate Valid()
      reads this
    {
      0 <= selectedTab < |Tabs|
    }

    /** The cells start hidden, on the first tab. */
    constructor()
      ensures Valid() && !visible && selectedTab == 0
    {
      visible := false;
      selectedTab := 0;
    }

    method Show()
      requires Valid()
      modifies this
      ensures Valid() && visible && selectedTab == old(selectedTab)
    {
      visible := true;
    }

    method Hide()
      requires Valid()
      modifies this
      ensures Valid() && !visible && selectedTab == old(selectedTab)
    {
      visible := false;
    }

    /** `setTab(index)`: store the index clamped into the tab range. */
    method SetTab(index: int)
      modifies this
      ensures Valid() && selectedTab == ClampTab(index) && visible == old(visible)
    {
      selectedTab := Max(0, Min(index, |Tabs| - 1));
    }
  }
}

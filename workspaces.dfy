/**
 * The bar's workspace buttons: always ten, for workspaces 1 to 10, each showing the
 * Hyprland workspace with that id if there is one, visible up to the highest workspace
 * in use. Special workspaces (ids -99 to -2) never take part.
 */
module Workspaces {
  import opened Wrappers
  import opened Seqs
  import opened Sorting

  datatype Workspace = Workspace(id: int, name: string)

  datatype WorkspaceButton = WorkspaceButton(id: int, workspace: Option<Workspace>, visible: bool, isActive: bool)

  const ButtonCount := 10

  /** The filter's test: not one of the special workspaces. */
  predicate Kept(w: Workspace) {
    !(-99 <= w.id <= -2)
  }

  /** The comparator `a.id - b.id`. */
  function ById(w: Workspace): (int, int) {
    (w.id, 0)
  }

  /** `activeWorkspaces`: the kept workspaces sorted by id. */
  function ActiveWorkspaces(wss: seq<Workspace>): (r: seq<Workspace>)
    ensures SortedBy(r, ById)
    ensures forall w :: w in r <==> w in wss && Kept(w)
  {
    var r := SortBy(Filter(wss, Kept), ById);
    assert forall w :: w in r <==> w in multiset(Filter(wss, Kept));
    r
  }

  /** `activeWorkspaces[activeWorkspaces.length - 1]?.id || 1`: a missing or zero id gives 1. */
  function MaxId(active: seq<Workspace>): int {
    if active == [] || active[|active| - 1].id == 0 then 1 else active[|active| - 1].id
  }

  /** The entry for `id`: `activeWorkspaces.find((w) => w.id === id)`. */
  function Button(active: seq<Workspace>, maxId: int, id: int): (b: WorkspaceButton)
    ensures b.id == id && (b.isActive <==> b.workspace.Some?) && (b.visible <==> id <= maxId)
    ensures b.workspace.Some? ==> b.workspace.value in active && b.workspace.value.id == id
    ensures b.workspace.None? ==> forall w :: w in active ==> w.id != id
  {
    var i := IndexWhere(active, (w: Workspace) => w.id == id);
    var ws := if i >= 0 then Some(active[i]) else None;
    WorkspaceButton(id, ws, maxId >= id, ws != None)
  }

  /** The `workspaceButtons` binding. */
  function WorkspaceButtons(wss: seq<Workspace>): (r: seq<WorkspaceButton>)
    ensures |r| == ButtonCount
    ensures forall k :: 0 <= k < |r| ==> r[k].id == k + 1
  {
    var active := ActiveWorkspaces(wss);
    var maxId := MaxId(active);
    seq(ButtonCount, i requires 0 <= i < ButtonCount => Button(active, maxId, i + 1))
  }

  /**
   * Every button shows the kept workspace with its id, is active exactly when there is
   * one, and is visible exactly up to the highest kept id (1 when there is none or it is 0).
   */
  lemma ButtonLaws(wss: seq<Workspace>, k: nat)
    requires k < ButtonCount
    ensures var b := WorkspaceButtons(wss)[k];
      && (b.isActive <==> exists w :: w in wss && Kept(w) && w.id == k + 1)
      && (b.workspace.Some? ==> b.workspace.value in wss && Kept(b.workspace.value) && b.workspace.value.id == k + 1)
      && (b.visible <==> k + 1 <= MaxId(ActiveWorkspaces(wss)))
  {
    var active := ActiveWorkspaces(wss);
    assert WorkspaceButtons(wss)[k] == Button(active, MaxId(active), k + 1);
  }

  /**
   * `maxId` bounds every kept id, and unless it is the default 1 some kept workspace
   * has exactly that id; with no kept workspace it is 1.
   */
  lemma {:induction false} MaxIdIsLargest(wss: seq<Workspace>)
    ensures var m := MaxId(ActiveWorkspaces(wss));
      && (forall w :: w in wss && Kept(w) ==> w.id <= m)
      && (m != 1 ==> exists w :: w in wss && Kept(w) && w.id == m)
      && ((forall w :: w in wss ==> !Kept(w)) ==> m == 1)
  {
    var active := ActiveWorkspaces(wss);
    var m := MaxId(active);
    forall w | w in wss && Kept(w) ensures w.id <= m {
      assert w in active;
      var last := active[|active| - 1];
      var j :| 0 <= j < |active| && active[j] == w;
      if j < |active| - 1 {
        assert KeyLe(ById(active[j]), ById(last));
      }
    }
    if m != 1 {
      assert active[|active| - 1] in active;
    }
  }

  /** Visibility is downward closed: below a visible button every button is visible. */
  lemma VisibleDownwardClosed(wss: seq<Workspace>, j: nat, k: nat)
    requires j < k < ButtonCount && WorkspaceButtons(wss)[k].visible
    ensures WorkspaceButtons(wss)[j].visible
  {
    ButtonLaws(wss, j);
    ButtonLaws(wss, k);
  }

  /** With no workspace in use only the first button shows. */
  lemma OnlyFirstWhenIdle(wss: seq<Workspace>, k: nat)
    requires k < ButtonCount && forall w :: w in wss ==> !Kept(w)
    ensures WorkspaceButtons(wss)[k].visible <==> k == 0
  {
    MaxIdIsLargest(wss);
    ButtonLaws(wss, k);
  }
}

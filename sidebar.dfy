/** The dashboard list of the side bar: creating a numbered dashboard, the delete
    confirmation (which refuses to delete the last dashboard and picks where to go
    next), and inline renaming with a trimmed name and a fallback. */
module Sidebar {
  import opened Common
  import opened Text
  import opened DashboardContext

  /** The confirmation modal's state: open or not, and which dashboard it is about. */
  datatype DeleteModal = DeleteModal(open: bool, dashboard: Option<DashboardInfo>)

  /** The backend calls the side bar issues. */
  datatype ApiCall =
    | CreateDashboard(name: string, description: string, isPublic: bool)
    | DeleteDashboard(dashboardId: string)
    | UpdateDashboard(dashboardId: string, newName: string)

  /** How a backend call settles: with its value, or by throwing an error whose `message`
      may be empty. */
  datatype Settled<T> = Done(value: T) | Failed(message: string)

  const NewDescription := "New dashboard ready for customization"
  const FallbackName := "Untitled Dashboard"

  /** The name given to the dashboard created when `count` already exist. */
  function NewDashboardName(count: nat): string {
    "Dashboard " + NatToString(count + 1)
  }

  /** Creating dashboards one after another never repeats a name: different counts give
      different names. */
  lemma NewDashboardNamesDistinct(m: nat, n: nat)
    requires m != n
    ensures NewDashboardName(m) != NewDashboardName(n)
  {
    if NewDashboardName(m) == NewDashboardName(n) {
      PrefixCancel("Dashboard ", NatToString(m + 1), NatToString(n + 1));
      NatToStringInjective(m + 1, n + 1);
    }
  }

  /** The route of a dashboard. */
  function Route(dashboardId: string): string {
    "/dashboard/" + dashboardId
  }

  /** `list.findIndex(d => d.id === id)`: the first position holding `id`, or -1. */
  function FindIndex(list: seq<DashboardInfo>, id: string): (r: int)
    ensures -1 <= r < |list|
    ensures r == -1 <==> forall k :: 0 <= k < |list| ==> list[k].id != id
    ensures r >= 0 ==> list[r].id == id && forall k :: 0 <= k < r ==> list[k].id != id
  {
    if list == [] then -1
    else if list[0].id == id then 0
    else var t := FindIndex(list[1..], id); if t == -1 then -1 else t + 1
  }

  /** The predicate of the delete filter. */
  function OtherThan(id: string): DashboardInfo -> bool {
    (d: DashboardInfo) => d.id != id
  }

  /** `list.filter(d => d.id !== id)`. */
  function WithoutId(list: seq<DashboardInfo>, id: string): (r: seq<DashboardInfo>)
    ensures |r| <= |list|
    ensures forall k :: 0 <= k < |r| ==> r[k].id != id && r[k] in list
    ensures forall k :: 0 <= k < |list| && list[k].id != id ==> list[k] in r
  {
    Filter(list, OtherThan(id))
  }

  /** Removal keeps the surviving dashboards in their original order. */
  lemma WithoutIdAppend(a: seq<DashboardInfo>, b: seq<DashboardInfo>, id: string)
    ensures WithoutId(a + b, id) == WithoutId(a, id) + WithoutId(b, id)
  {
    FilterAppend(a, b, OtherThan(id));
  }

  /** When `id` occurs once, at `idx`, removing it is removing that one position: the
      other dashboards keep their order. */
  lemma WithoutIdAtUniquePosition(list: seq<DashboardInfo>, id: string, idx: nat)
    requires idx < |list|
    requires forall k :: 0 <= k < |list| ==> (list[k].id == id <==> k == idx)
    ensures WithoutId(list, id) == list[..idx] + list[idx + 1..]
  {
    var p := OtherThan(id);
    var before, after := list[..idx], list[idx + 1..];
    assert list == before + ([list[idx]] + after);
    FilterAppend(before, [list[idx]] + after, p);
    FilterAppend([list[idx]], after, p);
    assert forall k :: 0 <= k < |before| ==> p(before[k]) by {
      forall k | 0 <= k < |before| ensures p(before[k]) { assert before[k] == list[k]; }
    }
    assert forall k :: 0 <= k < |after| ==> p(after[k]) by {
      forall k | 0 <= k < |after| ensures p(after[k]) { assert after[k] == list[idx + 1 + k]; }
    }
    assert Filter([list[idx]], p) == Filter([list[idx]][1..], p);
  }

  /** `remaining[idx] || remaining[idx - 1] || remaining[0]`: an index outside the list
      reads `undefined`, which is falsy; a dashboard record is always truthy. */
  function RedirectTarget(remaining: seq<DashboardInfo>, idx: int): (r: Option<DashboardInfo>)
    ensures r.Some? <==> |remaining| > 0
    ensures r.Some? ==> r.value in remaining
    ensures 0 <= idx < |remaining| ==> r == Some(remaining[idx])
    ensures idx == |remaining| > 0 ==> r == Some(remaining[idx - 1])
    ensures !(0 <= idx <= |remaining|) && |remaining| > 0 ==> r == Some(remaining[0])
  {
    if 0 <= idx < |remaining| then Some(remaining[idx])
    else if 0 <= idx - 1 < |remaining| then Some(remaining[idx - 1])
    else if |remaining| > 0 then Some(remaining[0])
    else None
  }

  /** After deleting the dashboard at `idx` (its id unique in the list), the redirect goes to
      the one that followed it, or to the one before it when it was the last. */
  lemma RedirectSuccessorElsePredecessor(list: seq<DashboardInfo>, id: string, idx: nat)
    requires idx < |list| && |list| >= 2
    requires forall k :: 0 <= k < |list| ==> (list[k].id == id <==> k == idx)
    ensures FindIndex(list, id) == idx
    ensures RedirectTarget(WithoutId(list, id), FindIndex(list, id))
         == Some(if idx + 1 < |list| then list[idx + 1] else list[idx - 1])
  {
    WithoutIdAtUniquePosition(list, id, idx);
    var rest := list[..idx] + list[idx + 1..];
    if idx + 1 < |list| {
      assert rest[idx] == list[idx + 1];
    } else {
      assert rest[idx - 1] == list[idx - 1];
    }
  }

  /** `newName.trim() || 'Untitled Dashboard'`: never empty and never padded. */
  function FinalName(newName: string): (r: string)
    ensures r != "" && Trimmed(r)
  {
    var t := Trim(newName);
    if t == "" then FallbackName else t
  }

  /** A blank name falls back to `Untitled Dashboard`; any other name is used trimmed. */
  lemma FinalNameCases(newName: string)
    ensures AllWhitespace(newName) ==> FinalName(newName) == FallbackName
    ensures !AllWhitespace(newName) ==> FinalName(newName) == Trim(newName)
  {
    TrimEmptyIffBlank(newName);
  }

  /** `prev.map(d => d.id === id ? {...d, name} : d)`. */
  function RenameInList(list: seq<DashboardInfo>, id: string, name: string): (r: seq<DashboardInfo>)
    ensures |r| == |list|
    ensures forall k :: 0 <= k < |list| ==>
      r[k] == if list[k].id == id then list[k].(name := name) else list[k]
  {
    seq(|list|, k requires 0 <= k < |list| => if list[k].id == id then list[k].(name := name) else list[k])
  }

  /** Renaming in the list agrees with renaming the current-dashboard cell, entry by entry. */
  lemma RenameInListAgreesWithCell(list: seq<DashboardInfo>, id: string, name: string, k: nat)
    requires k < |list|
    ensures Some(RenameInList(list, id, name)[k]) == RenameIfMatch(Some(list[k]), id, name)
  {
  }

  /** `error.message || fallback`. */
  function ErrorText(message: string, fallback: string): string {
    if message != "" then message else fallback
  }

  class Sidebar {
    var dashboards: seq<DashboardInfo>
    var deleteModal: DeleteModal
    var editingDashboard: Option<string>
    var editingName: string
    /** The router's current path; `navigate` replaces it. */
    var path: string
    /** The current-dashboard cell shared through the context. */
    const ctx: DashboardCell

    constructor (ctx: DashboardCell, path: string)
      ensures this.ctx == ctx && this.path == path
      ensures dashboards == [] && deleteModal == DeleteModal(false, None)
      ensures editingDashboard.None? && editingName == ""
    {
      this.ctx := ctx;
      this.path := path;
      dashboards := [];
      deleteModal := DeleteModal(false, None);
      editingDashboard := None;
      editingName := "";
    }

    /** `handleNewDashboard`: `outcome` is how `createDashboard` settles. */
    method NewDashboard(outcome: Settled<DashboardInfo>) returns (call: ApiCall, toast: Toast)
      modifies this, ctx
      ensures call == CreateDashboard(NewDashboardName(|old(dashboards)|), NewDescription, false)
      ensures outcome.Done? ==>
        dashboards == old(dashboards) + [outcome.value]
        && ctx.current == Some(outcome.value)
        && path == Route(outcome.value.id)
        && toast == Toast("Dashboard Created", "New dashboard created successfully!", false)
      ensures outcome.Failed? ==>
        dashboards == old(dashboards) && ctx.current == old(ctx.current) && path == old(path)
        && toast == ErrorToast("Failed to create new dashboard")
      ensures deleteModal == old(deleteModal) && editingDashboard == old(editingDashboard)
      ensures editingName == old(editingName)
    {
      call := CreateDashboard(NewDashboardName(|dashboards|), NewDescription, false);
      match outcome
      case Done(created) =>
        dashboards := dashboards + [created];
        toast := Toast("Dashboard Created", "New dashboard created successfully!", false);
        ctx.SetCurrent(Some(created));
        path := Route(created.id);
      case Failed(_) =>
        toast := ErrorToast("Failed to create new dashboard");
    }

    /** `handleDeleteDashboard`: opens the confirmation only for a dashboard in the list. */
    method RequestDelete(dashboardId: string)
      modifies this
      ensures var k := FindIndex(old(dashboards), dashboardId);
        if k >= 0 then deleteModal == DeleteModal(true, Some(old(dashboards)[k]))
        else deleteModal == old(deleteModal)
      ensures dashboards == old(dashboards) && path == old(path)
      ensures editingDashboard == old(editingDashboard) && editingName == old(editingName)
    {
      var k := FindIndex(dashboards, dashboardId);
      if k >= 0 {
        deleteModal := DeleteModal(true, Some(dashboards[k]));
      }
    }

    /** `handleConfirmDelete`: `outcome` is how `deleteDashboard` settles. The modal itself is
        closed afterwards by `CloseDeleteModal`. */
    method ConfirmDelete(outcome: Settled<()>) returns (calls: seq<ApiCall>, toast: Option<Toast>)
      modifies this, ctx
      ensures deleteModal == old(deleteModal)
      ensures editingDashboard == old(editingDashboard) && editingName == old(editingName)
      ensures old(deleteModal).dashboard.None? ==>
        calls == [] && toast.None? && dashboards == old(dashboards)
        && path == old(path) && ctx.current == old(ctx.current)
      ensures old(deleteModal).dashboard.Some? && |old(dashboards)| <= 1 ==>
        calls == [] && dashboards == old(dashboards)
        && path == old(path) && ctx.current == old(ctx.current)
        && toast == Some(Toast("Cannot Delete Dashboard",
                               "You must have at least one dashboard. Create another dashboard first.", true))
      ensures old(deleteModal).dashboard.Some? && |old(dashboards)| > 1 ==>
        var target := old(deleteModal).dashboard.value;
        calls == [DeleteDashboard(target.id)]
        && (outcome.Failed? ==>
              dashboards == old(dashboards) && path == old(path) && ctx.current == old(ctx.current)
              && toast == Some(ErrorToast(if outcome.message != "" then outcome.message
                                          else "Failed to delete dashboard")))
        && (outcome.Done? ==>
              var remaining := WithoutId(old(dashboards), target.id);
              var next := RedirectTarget(remaining, FindIndex(old(dashboards), target.id));
              dashboards == remaining
              && toast == Some(Toast("Dashboard Deleted",
                                     "\"" + target.name + "\" has been deleted successfully.", false))
              && (if (old(path) == Route(target.id) || old(path) == "/") && next.Some?
                  then ctx.current == next && path == Route(next.value.id)
                  else ctx.current == old(ctx.current) && path == old(path)))
    {
      calls, toast := [], None;
      if deleteModal.dashboard.None? {
        return;
      }
      var target := deleteModal.dashboard.value;
      if |dashboards| <= 1 {
        toast := Some(Toast("Cannot Delete Dashboard",
                            "You must have at least one dashboard. Create another dashboard first.", true));
        return;
      }
      calls := [DeleteDashboard(target.id)];
      match outcome
      case Failed(message) =>
        toast := Some(ErrorToast(if message != "" then message else "Failed to delete dashboard"));
      case Done(_) =>
        var remaining := WithoutId(dashboards, target.id);
        var deletedIndex := FindIndex(dashboards, target.id);
        dashboards := remaining;
        if path == Route(target.id) || path == "/" {
          if |remaining| > 0 {
            var next := RedirectTarget(remaining, deletedIndex);
            if next.Some? {
              ctx.SetCurrent(next);
              path := Route(next.value.id);
            }
          }
        }
        toast := Some(Toast("Dashboard Deleted", "\"" + target.name + "\" has been deleted successfully.", false));
    }

    /** `handleCloseDeleteModal`. */
    method CloseDeleteModal()
      modifies this
      ensures deleteModal == DeleteModal(false, None)
      ensures dashboards == old(dashboards) && path == old(path)
      ensures editingDashboard == old(editingDashboard) && editingName == old(editingName)
    {
      deleteModal := DeleteModal(false, None);
    }

    /** `handleQuickRename`: `outcome` is how `updateDashboard` settles. */
    method QuickRename(dashboardId: string, newName: string, outcome: Settled<()>) returns (call: ApiCall, toast: Option<Toast>)
      modifies this, ctx
      ensures call == UpdateDashboard(dashboardId, FinalName(newName))
      ensures outcome.Done? ==>
        dashboards == RenameInList(old(dashboards), dashboardId, FinalName(newName))
        && ctx.current == RenameIfMatch(old(ctx.current), dashboardId, FinalName(newName))
        && toast.None?
      ensures outcome.Failed? ==>
        dashboards == old(dashboards) && ctx.current == old(ctx.current)
        && toast == Some(ErrorToast(ErrorText(outcome.message, "Failed to rename dashboard")))
      ensures deleteModal == old(deleteModal) && path == old(path)
      ensures editingDashboard == old(editingDashboard) && editingName == old(editingName)
    {
      var finalName := FinalName(newName);
      call := UpdateDashboard(dashboardId, finalName);
      toast := None;
      if outcome.Done? {
        Rename(dashboardId, finalName);
      } else {
        toast := Some(ErrorToast(ErrorText(outcome.message, "Failed to rename dashboard")));
      }
    }

    /** The success branch of the rename: the list entry and the context cell get the name. */
    method Rename(dashboardId: string, finalName: string)
      modifies this, ctx
      ensures dashboards == RenameInList(old(dashboards), dashboardId, finalName)
      ensures ctx.current == RenameIfMatch(old(ctx.current), dashboardId, finalName)
      ensures deleteModal == old(deleteModal) && path == old(path)
      ensures editingDashboard == old(editingDashboard) && editingName == old(editingName)
    {
      var renamed := RenameInList(dashboards, dashboardId, finalName);
      ctx.UpdateDashboardName(dashboardId, finalName);
      dashboards := renamed;
    }

    /** `startRename`. */
    method StartRename(dashboardId: string, currentName: string)
      modifies this
      ensures editingDashboard == Some(dashboardId) && editingName == currentName
      ensures dashboards == old(dashboards) && deleteModal == old(deleteModal) && path == old(path)
    {
      editingDashboard := Some(dashboardId);
      editingName := currentName;
    }

    /** `saveRenameAndExit`: the rename catches its own errors, so editing always ends. */
    method SaveRenameAndExit(dashboardId: string, newName: string, outcome: Settled<()>) returns (call: ApiCall, toast: Option<Toast>)
      modifies this, ctx
      ensures call == UpdateDashboard(dashboardId, FinalName(newName))
      ensures outcome.Done? ==>
        dashboards == RenameInList(old(dashboards), dashboardId, FinalName(newName))
        && ctx.current == RenameIfMatch(old(ctx.current), dashboardId, FinalName(newName))
        && toast.None?
      ensures outcome.Failed? ==>
        dashboards == old(dashboards) && ctx.current == old(ctx.current)
        && toast == Some(ErrorToast(ErrorText(outcome.message, "Failed to rename dashboard")))
      ensures editingDashboard.None? && editingName == ""
      ensures deleteModal == old(deleteModal) && path == old(path)
    {
      call, toast := QuickRename(dashboardId, newName, outcome);
      EndEditing();
    }

    /** `setEditingDashboard(null); setEditingName('')`. */
    method EndEditing()
      modifies this
      ensures editingDashboard.None? && editingName == ""
      ensures dashboards == old(dashboards) && deleteModal == old(deleteModal) && path == old(path)
    {
      editingDashboard := None;
      editingName := "";
    }
  }
}

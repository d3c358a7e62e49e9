/** The current-dashboard cell shared through the React context: one mutable
    `currentDashboard` slot, replaced wholesale by `setCurrentDashboard` and
    renamed in place (when the id matches) by `updateDashboardName`. */
module DashboardContext {
  import opened Common

  /** A dashboard record as the backend returns it. */
  datatype DashboardInfo = DashboardInfo(
    id: string,
    name: string,
    description: Option<string>,
    createdAt: string,
    updatedAt: string)

  /** The updater passed to `setCurrentDashboard(prev => ...)` by `updateDashboardName`. */
  function RenameIfMatch(prev: Option<DashboardInfo>, dashboardId: string, newName: string): (r: Option<DashboardInfo>)
    ensures prev.None? ==> r.None?
    ensures prev.Some? && prev.value.id == dashboardId ==>
              r == Some(prev.value.(name := newName))
    ensures prev.Some? && prev.value.id != dashboardId ==> r == prev
  {
    if prev.Some? && prev.value.id == dashboardId then Some(prev.value.(name := newName)) else prev
  }

  /** Renaming never touches anything but `name`: id, description and timestamps survive. */
  lemma RenameKeepsOtherFields(prev: Option<DashboardInfo>, dashboardId: string, newName: string)
    requires prev.Some?
    ensures var r := RenameIfMatch(prev, dashboardId, newName);
      r.Some? && r.value.id == prev.value.id && r.value.description == prev.value.description
      && r.value.createdAt == prev.value.createdAt && r.value.updatedAt == prev.value.updatedAt
      && (r.value.name == newName || (r.value.name == prev.value.name && prev.value.id != dashboardId))
  {
  }

  /** Applying the same rename twice gives the result of applying it once. */
  lemma RenameIdempotent(prev: Option<DashboardInfo>, dashboardId: string, newName: string)
    ensures RenameIfMatch(RenameIfMatch(prev, dashboardId, newName), dashboardId, newName)
         == RenameIfMatch(prev, dashboardId, newName)
  {
  }

  class DashboardCell {
    var current: Option<DashboardInfo>

    constructor ()
      ensures current.None?
    {
      current := None;
    }

    /** `setCurrentDashboard(d)`: wholesale replacement. */
    method SetCurrent(d: Option<DashboardInfo>)
      modifies this
      ensures current == d
    {
      current := d;
    }

    /** `updateDashboardName(id, name)`. */
    method UpdateDashboardName(dashboardId: string, newName: string)
      modifies this
      ensures current == RenameIfMatch(old(current), dashboardId, newName)
      ensures old(current).None? ==> current.None?
      ensures old(current).Some? && old(current).value.id != dashboardId ==> current == old(current)
    {
      current := RenameIfMatch(current, dashboardId, newName);
    }
  }
}

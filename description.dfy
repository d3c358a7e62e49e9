/** The dashboard's editable description: a text area entered on demand, saved through the
    backend (Ctrl+Enter or the save button), and mirrored into the current-dashboard cell when
    that cell shows the same dashboard. Saving is asynchronous, so it is split into the part
    before the awaited backend call and the part after it. */
module Description {
  import opened Common
  import opened Text
  import opened DashboardContext

  /** `editValue.trim() || undefined`: the trimmed text, or nothing for a blank text. */
  function SavedDescription(editValue: string): (r: Option<string>)
    ensures r.None? <==> Trim(editValue) == ""
    ensures r.Some? ==> r.value == Trim(editValue) && r.value != "" && Trimmed(r.value)
  {
    var t := Trim(editValue);
    if t == "" then None else Some(t)
  }

  /** Exactly a blank text removes the description. */
  lemma BlankRemovesDescription(editValue: string)
    ensures SavedDescription(editValue).None? <==> AllWhitespace(editValue)
  {
    TrimEmptyIffBlank(editValue);
  }

  /** Saving what was just saved stores the same description again. */
  lemma SavedDescriptionStable(editValue: string)
    requires SavedDescription(editValue).Some?
    ensures SavedDescription(SavedDescription(editValue).value) == SavedDescription(editValue)
  {
    TrimIdempotent(editValue);
  }

  /** The success toast's text. */
  function SuccessText(saved: Option<string>): string {
    if saved.Some? then "Dashboard description updated" else "Dashboard description removed"
  }

  const SaveFailedText := "Failed to update description. Please try again."

  /** What the save handler captured when it started: the text it sends, the description prop
      and the current dashboard as they were, since the handler's closure sees only those. */
  datatype SaveTicket = SaveTicket(saved: Option<string>, description: string, snapshot: Option<DashboardInfo>)

  /** The dashboard record the context receives after a successful save, if any: the record
      captured at the start with its description replaced, and only when it is the same
      dashboard. */
  function ContextUpdate(snapshot: Option<DashboardInfo>, dashboardId: string, saved: Option<string>): (r: Option<DashboardInfo>)
    ensures r.Some? <==> snapshot.Some? && snapshot.value.id == dashboardId
    ensures r.Some? ==> r.value.description == saved && r.value.id == dashboardId
                        && r.value.name == snapshot.value.name && r.value.createdAt == snapshot.value.createdAt
                        && r.value.updatedAt == snapshot.value.updatedAt
  {
    if snapshot.Some? && snapshot.value.id == dashboardId then Some(snapshot.value.(description := saved)) else None
  }

  /** A backend request the component makes. */
  datatype DescriptionCall = UpdateDescription(dashboardId: string, description: Option<string>)

  class EditableDescription {
    const dashboardId: string
    var description: string
    var editValue: string
    var isEditing: bool
    var isLoading: bool
    const ctx: DashboardCell

    constructor(dashboardId: string, description: string, ctx: DashboardCell)
      ensures this.dashboardId == dashboardId && this.description == description && this.ctx == ctx
      ensures editValue == description && !isEditing && !isLoading
    {
      this.dashboardId := dashboardId;
      this.description := description;
      editValue := description;
      isEditing := false;
      isLoading := false;
      this.ctx := ctx;
    }

    /** The `[description]` effect: a new description prop replaces the edit text. */
    method PropChange(newDescription: string)
      modifies this
      ensures description == newDescription
      ensures editValue == if newDescription != old(description) then newDescription else old(editValue)
      ensures isEditing == old(isEditing) && isLoading == old(isLoading)
    {
      if newDescription != description {
        description := newDescription;
        editValue := newDescription;
      }
    }

    /** `handleStartEdit`. */
    method StartEdit()
      modifies this
      ensures isEditing && editValue == description
      ensures description == old(description) && isLoading == old(isLoading)
    {
      isEditing := true;
      editValue := description;
    }

    /** `handleCancel`: leaves editing, restores the description and calls nothing. */
    method Cancel()
      modifies this
      ensures !isEditing && editValue == description
      ensures description == old(description) && isLoading == old(isLoading)
    {
      isEditing := false;
      editValue := description;
    }

    /** The typing in the text area. */
    method Edit(text: string)
      modifies this
      ensures editValue == text
      ensures description == old(description) && isEditing == old(isEditing) && isLoading == old(isLoading)
    {
      editValue := text;
    }

    /** `handleSave` up to the awaited backend call: nothing while a save is in flight,
        otherwise the loading flag is set and the trimmed text (or nothing) is sent. */
    method BeginSave() returns (call: Option<DescriptionCall>, ticket: Option<SaveTicket>)
      modifies this
      ensures old(isLoading) ==> call.None? && ticket.None? && isLoading
      ensures !old(isLoading) ==> isLoading && call == Some(UpdateDescription(dashboardId, SavedDescription(editValue)))
                                  && ticket == Some(SaveTicket(SavedDescription(editValue), description, ctx.current))
      ensures description == old(description) && editValue == old(editValue) && isEditing == old(isEditing)
    {
      if isLoading {
        return None, None;
      }
      var saved := SavedDescription(editValue);
      isLoading := true;
      call := Some(UpdateDescription(dashboardId, saved));
      ticket := Some(SaveTicket(saved, description, ctx.current));
    }

    /** `handleSave` after the backend call settles (`ok` on success): success mirrors the
        description into the context and leaves editing; failure keeps editing with the edit
        text reverted; either way loading ends. */
    method FinishSave(ticket: SaveTicket, ok: bool) returns (toast: Toast)
      modifies this, ctx
      ensures !isLoading && description == old(description)
      ensures ok ==> !isEditing && editValue == old(editValue) && toast == SuccessToast(SuccessText(ticket.saved))
      ensures ok && ContextUpdate(ticket.snapshot, dashboardId, ticket.saved).Some? ==>
                ctx.current == ContextUpdate(ticket.snapshot, dashboardId, ticket.saved)
      ensures !(ok && ContextUpdate(ticket.snapshot, dashboardId, ticket.saved).Some?) ==> ctx.current == old(ctx.current)
      ensures !ok ==> isEditing == old(isEditing) && editValue == ticket.description && toast == ErrorToast(SaveFailedText)
    {
      if ok {
        var update := ContextUpdate(ticket.snapshot, dashboardId, ticket.saved);
        if update.Some? {
          ctx.SetCurrent(update);
        }
        isEditing := false;
        toast := SuccessToast(SuccessText(ticket.saved));
      } else {
        toast := ErrorToast(SaveFailedText);
        editValue := ticket.description;
      }
      isLoading := false;
    }

    /** `handleKeyDown`: Ctrl+Enter starts a save, Escape cancels. */
    method KeyDown(key: string, ctrl: bool) returns (call: Option<DescriptionCall>, ticket: Option<SaveTicket>)
      modifies this
      ensures key == "Enter" && ctrl ==> isLoading
      ensures key == "Enter" && ctrl && old(isLoading) ==> call.None? && ticket.None?
      ensures key == "Enter" && ctrl && !old(isLoading) ==>
                call == Some(UpdateDescription(dashboardId, SavedDescription(old(editValue))))
                && ticket == Some(SaveTicket(SavedDescription(old(editValue)), old(description), ctx.current))
      ensures key == "Enter" && ctrl ==> editValue == old(editValue) && isEditing == old(isEditing)
      ensures key == "Escape" ==> call.None? && ticket.None? && !isEditing && editValue == description
                                  && isLoading == old(isLoading)
      ensures !(key == "Enter" && ctrl) && key != "Escape" ==>
                call.None? && ticket.None? && editValue == old(editValue) && isEditing == old(isEditing) && isLoading == old(isLoading)
      ensures description == old(description)
    {
      call, ticket := None, None;
      if key == "Enter" && ctrl {
        call, ticket := BeginSave();
      } else if key == "Escape" {
        Cancel();
      }
    }
  }
}

/** The "Add section" button, whose options row offers one button per block kind, and the
    editable section that wraps a block and turns its callbacks into section updates and
    deletions by section id. */
module Sections {
  import opened Common
  import opened Text
  import opened EditableText
  import opened Blocks

  /** A callback of the section list's owner. */
  datatype SectionCall =
    | AddSection(title: string, kind: BlockType)
    | UpdateSection(id: string, title: string)
    | DeleteSection(id: string)
    | UpdateType(id: string, kind: BlockType)
    | EnterAfter(id: string)

  class AddSectionButton {
    var showOptions: bool

    constructor()
      ensures !showOptions
    {
      showOptions := false;
    }

    /** The "Add section" button opens the options row. */
    method Open()
      modifies this
      ensures showOptions
    {
      showOptions := true;
    }

    /** `handleAddHeader` and its three siblings: an empty section of the chosen kind, then the
        options close. */
    method Add(kind: BlockType) returns (call: SectionCall)
      modifies this
      ensures call == AddSection("", kind)
      ensures !showOptions
    {
      call := AddSection("", kind);
      showOptions := false;
    }

    /** Cancel closes the options and adds nothing. */
    method Cancel()
      modifies this
      ensures !showOptions
    {
      showOptions := false;
    }
  }

  /** `handleUpdate(newTitle)`: a blank title deletes the section, any other title updates it
      with its trimmed form. */
  function HandleUpdate(id: string, newTitle: string): (r: SectionCall)
    ensures r.DeleteSection? || r.UpdateSection?
    ensures r.id == id
    ensures r.UpdateSection? ==> r.title == Trim(newTitle) && r.title != ""
    ensures r.DeleteSection? <==> Trim(newTitle) == ""
  {
    var t := Trim(newTitle);
    if t == "" then DeleteSection(id) else UpdateSection(id, t)
  }

  /** Which titles delete the section: exactly the blank ones. */
  lemma HandleUpdateDeletesBlank(id: string, newTitle: string)
    ensures HandleUpdate(id, newTitle).DeleteSection? <==> AllWhitespace(newTitle)
  {
    TrimEmptyIffBlank(newTitle);
  }

  /** Updating with a title the block already trimmed passes it on unchanged. */
  lemma HandleUpdateOfTrimmed(id: string, title: string)
    requires title != "" && Trimmed(title)
    ensures HandleUpdate(id, title) == UpdateSection(id, title)
  {
    TrimIdentity(title);
  }

  /** What one block callback becomes in the section: `onChange` goes through `handleUpdate`,
      `onDelete` is always passed on, and type changes and Enter are passed on only when the
      owner provides those callbacks. */
  function Forward(id: string, call: BlockCall, hasOnUpdateType: bool, hasOnEnter: bool): (r: seq<SectionCall>)
    ensures call.Change? ==> r == [HandleUpdate(id, call.text)]
    ensures call.Delete? ==> r == [DeleteSection(id)]
    ensures call.TypeChange? ==> r == (if hasOnUpdateType then [UpdateType(id, call.newType)] else [])
    ensures call.Enter? ==> r == (if hasOnEnter then [EnterAfter(id)] else [])
    ensures forall k :: 0 <= k < |r| ==> !r[k].AddSection? && r[k].id == id
  {
    match call
    case Change(text) => [HandleUpdate(id, text)]
    case Delete => [DeleteSection(id)]
    case TypeChange(t) => if hasOnUpdateType then [UpdateType(id, t)] else []
    case Enter => if hasOnEnter then [EnterAfter(id)] else []
  }

  /** The section callbacks of a sequence of block callbacks, in order. */
  function ForwardAll(id: string, calls: seq<BlockCall>, hasOnUpdateType: bool, hasOnEnter: bool): (r: seq<SectionCall>)
    ensures forall k :: 0 <= k < |r| ==> !r[k].AddSection? && r[k].id == id
  {
    if calls == [] then []
    else Forward(id, calls[0], hasOnUpdateType, hasOnEnter) + ForwardAll(id, calls[1..], hasOnUpdateType, hasOnEnter)
  }

  /** The block's calls when a titled block is blurred with a blank text: the empty save, then
      its own delete. */
  lemma ClearedBlurCalls(title: string, editValue: string)
    requires title != "" && AllWhitespace(editValue)
    ensures BlurCalls(title, editValue, false, true) == [Change(""), Delete]
  {
    TrimEmptyIffBlank(editValue);
  }

  /** The section's calls for the empty save followed by the block's delete. */
  lemma ForwardEmptySaveAndDelete(id: string, hasOnUpdateType: bool, hasOnEnter: bool)
    ensures ForwardAll(id, [Change(""), Delete], hasOnUpdateType, hasOnEnter) == [DeleteSection(id), DeleteSection(id)]
  {
    TrimEmptyIffBlank("");
    var calls := [Change(""), Delete];
    assert HandleUpdate(id, "") == DeleteSection(id);
    assert calls[1..] == [Delete] && calls[1..][1..] == [];
    assert ForwardAll(id, [Delete], hasOnUpdateType, hasOnEnter) == [DeleteSection(id)];
  }

  /** Clearing a section that had a title and blurring it deletes the section twice: once
      through `handleUpdate` of the empty save, and once through the block's own delete of an
      empty text. */
  lemma ClearAndBlurDeletesTwice(id: string, title: string, editValue: string, hasOnUpdateType: bool, hasOnEnter: bool)
    requires title != "" && AllWhitespace(editValue)
    ensures ForwardAll(id, BlurCalls(title, editValue, false, true), hasOnUpdateType, hasOnEnter)
            == [DeleteSection(id), DeleteSection(id)]
  {
    ClearedBlurCalls(title, editValue);
    ForwardEmptySaveAndDelete(id, hasOnUpdateType, hasOnEnter);
  }

  /** The editable section around one block: the block's callbacks are rewritten as section
      callbacks for `id`. */
  class EditableSection {
    const id: string
    const hasOnUpdateType: bool
    const hasOnEnter: bool
    const block: NotionBlock

    /** The section renders a block with its title and kind, always wiring its delete, type and
        Enter callbacks. */
    constructor(id: string, title: string, kind: BlockType, hasOnUpdateType: bool, hasOnEnter: bool)
      ensures this.id == id && this.hasOnUpdateType == hasOnUpdateType && this.hasOnEnter == hasOnEnter
      ensures fresh(block) && block.value == title && block.blockType == kind && !block.disabled
      ensures block.hasOnDelete && block.hasOnEnter && block.hasOnTypeChange
      ensures block.editValue == title && (block.isEditing <==> title == "") && !block.isSaving
    {
      this.id := id;
      this.hasOnUpdateType := hasOnUpdateType;
      this.hasOnEnter := hasOnEnter;
      block := new NotionBlock(title, kind, false, true, true, true);
    }

    /** A blur of the section's block, with the calls it makes to the section's owner. */
    method Blur(saveThrows: bool) returns (calls: seq<SectionCall>)
      modifies block
      ensures old(block.isEditing) ==>
        calls == ForwardAll(id, BlurCalls(old(block.value), old(block.editValue), saveThrows, block.hasOnDelete), hasOnUpdateType, hasOnEnter)
      ensures !old(block.isEditing) ==> calls == [] && block.isSaving == old(block.isSaving)
      ensures old(block.isEditing) ==>
        block.isSaving == (if BlurSave(old(block.value), old(block.editValue)).Some? then saveThrows else old(block.isSaving))
      ensures !block.isEditing && block.value == old(block.value) && block.editValue == old(block.editValue)
    {
      var blockCalls := block.Blur(saveThrows);
      calls := ForwardAll(id, blockCalls, hasOnUpdateType, hasOnEnter);
    }
  }
}

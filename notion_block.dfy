/** A typed text block (header, subheader, text or description) edited in place: the same
    click/blur/Escape cycle as the inline editable text, plus Enter to save (and open a new
    block after a heading), Backspace in an empty block to delete it, and a type menu. */
module Blocks {
  import opened Common
  import opened Text
  import opened EditableText

  datatype BlockType = Header | Subheader | TextBlock | Description

  /** `type === 'description' || type === 'text'`. */
  predicate IsMultiline(t: BlockType) {
    t == Description || t == TextBlock
  }

  /** `getMaxLength()`: the `maxLength` attribute of the input. */
  function MaxLength(t: BlockType): nat {
    match t
    case Header | Subheader => 100
    case Description => 500
    case TextBlock => 1000
  }

  /** Exactly the single-line kinds have the short cap; the multi-line kinds allow at least
      500 characters. */
  lemma CapFollowsKind(t: BlockType)
    ensures MaxLength(t) == 100 <==> !IsMultiline(t)
    ensures IsMultiline(t) ==> MaxLength(t) >= 500
    ensures MaxLength(t) <= 1000
  {
  }

  /** `getPlaceholder()`: a non-empty `placeholder` prop wins, otherwise a text per kind; the
      result is never empty. */
  function Placeholder(placeholder: Option<string>, t: BlockType): (r: string)
    ensures placeholder.Some? && placeholder.value != "" ==> r == placeholder.value
    ensures r != ""
  {
    if placeholder.Some? && placeholder.value != "" then placeholder.value
    else match t
      case Header => "Header"
      case Subheader => "Subheader"
      case Description => "Add a description..."
      case TextBlock => "Add text..."
  }

  /** Without a placeholder prop each kind gets its own distinct placeholder. */
  lemma DefaultPlaceholdersDistinct(t1: BlockType, t2: BlockType)
    requires t1 != t2
    ensures Placeholder(None, t1) != Placeholder(None, t2)
  {
  }

  /** A callback the block invokes. */
  datatype BlockCall = Change(text: string) | Delete | Enter | TypeChange(newType: BlockType)

  /** The callbacks of `handleBlur`: `onChange` with the trimmed text when it changed, then
      `onDelete` when the trimmed text is empty (unless the awaited save threw). */
  function BlurCalls(value: string, editValue: string, saveThrows: bool, hasOnDelete: bool): (r: seq<BlockCall>)
    ensures |r| <= 2
    ensures Change(Trim(editValue)) in r <==> Trim(editValue) != value
    ensures forall k :: 0 <= k < |r| && r[k].Change? ==> k == 0 && r[k].text == Trim(editValue)
    ensures Delete in r <==> hasOnDelete && Trim(editValue) == "" && !(Trim(editValue) != value && saveThrows)
    ensures Enter !in r
    ensures r == (if Trim(editValue) != value then [Change(Trim(editValue))] else [])
                 + (if hasOnDelete && Trim(editValue) == "" && !(Trim(editValue) != value && saveThrows)
                    then [Delete] else [])
  {
    var effect := BlurOf(value, editValue, saveThrows);
    var save := if effect.saved.Some? then [Change(effect.saved.value)] else [];
    var delete := if effect.blurEmpty && hasOnDelete then [Delete] else [];
    assert Delete !in save && Change(Trim(editValue)) !in delete;
    save + delete
  }

  /** The callbacks of a plain Enter: `onChange` with the trimmed text when it changed (for
      every kind), then `onEnter` for the single-line kinds only. */
  function EnterCalls(t: BlockType, value: string, editValue: string, hasOnEnter: bool): (r: seq<BlockCall>)
    ensures Change(Trim(editValue)) in r <==> Trim(editValue) != value
    ensures forall k :: 0 <= k < |r| && r[k].Change? ==> k == 0 && r[k].text == Trim(editValue)
    ensures Enter in r <==> hasOnEnter && !IsMultiline(t)
    ensures Delete !in r
    ensures |r| <= 2
    ensures r == (if Trim(editValue) != value then [Change(Trim(editValue))] else [])
                 + (if hasOnEnter && !IsMultiline(t) then [Enter] else [])
  {
    var save := BlurSave(value, editValue);
    (if save.Some? then [Change(save.value)] else [])
    + (if hasOnEnter && !IsMultiline(t) then [Enter] else [])
  }

  class NotionBlock {
    var value: string
    var editValue: string
    var isEditing: bool
    var isSaving: bool
    const blockType: BlockType
    const disabled: bool
    const hasOnDelete: bool
    const hasOnEnter: bool
    const hasOnTypeChange: bool

    /** Mounting: a block with an empty value starts out editing. */
    constructor(value: string, blockType: BlockType, disabled: bool,
                hasOnDelete: bool, hasOnEnter: bool, hasOnTypeChange: bool)
      ensures this.value == value && editValue == value && !isSaving
      ensures isEditing <==> value == ""
      ensures this.blockType == blockType && this.disabled == disabled
      ensures this.hasOnDelete == hasOnDelete && this.hasOnEnter == hasOnEnter && this.hasOnTypeChange == hasOnTypeChange
    {
      this.value := value;
      editValue := value;
      isEditing := value == "";
      isSaving := false;
      this.blockType := blockType;
      this.disabled := disabled;
      this.hasOnDelete := hasOnDelete;
      this.hasOnEnter := hasOnEnter;
      this.hasOnTypeChange := hasOnTypeChange;
    }

    /** The `[value]` effect. */
    method PropChange(newValue: string)
      modifies this
      ensures value == newValue
      ensures editValue == if newValue != old(value) then newValue else old(editValue)
      ensures isEditing == old(isEditing) && isSaving == old(isSaving)
    {
      if newValue != value {
        value := newValue;
        editValue := newValue;
      }
    }

    /** `handleClick`. */
    method Click()
      modifies this
      ensures isEditing == (old(isEditing) || !disabled)
      ensures value == old(value) && editValue == old(editValue) && isSaving == old(isSaving)
    {
      if disabled || isEditing {
        return;
      }
      isEditing := true;
    }

    /** `handleBlur`, with the awaited `onChange` either settling or throwing. */
    method Blur(saveThrows: bool) returns (calls: seq<BlockCall>)
      modifies this
      ensures !old(isEditing) ==> calls == [] && isEditing == old(isEditing) && isSaving == old(isSaving)
      ensures old(isEditing) ==>
        !isEditing && calls == BlurCalls(old(value), old(editValue), saveThrows, hasOnDelete)
        && isSaving == (if BlurSave(old(value), old(editValue)).Some? then saveThrows else old(isSaving))
      ensures value == old(value) && editValue == old(editValue)
    {
      if !isEditing {
        return [];
      }
      var effect := BlurOf(value, editValue, saveThrows);
      calls := BlurCalls(value, editValue, saveThrows, hasOnDelete);
      isEditing := false;
      if effect.saved.Some? {
        isSaving := effect.stillSaving;
      }
    }

    /** `handleKeyDown`: plain Enter saves (and asks for a new block after a heading) without
        leaving editing; Escape reverts and leaves editing; Backspace in an empty block deletes
        it; anything else is left to the input. */
    method KeyDown(key: string, shift: bool) returns (calls: seq<BlockCall>)
      modifies this
      ensures key == "Enter" && !shift ==> calls == EnterCalls(blockType, value, editValue, hasOnEnter)
      ensures key == "Escape" ==> calls == [] && editValue == value && !isEditing
      ensures key == "Backspace" ==> calls == (if old(editValue) == "" && hasOnDelete then [Delete] else [])
      ensures key != "Escape" ==> editValue == old(editValue) && isEditing == old(isEditing)
      ensures (key == "Enter" && shift) || (key != "Enter" && key != "Escape" && key != "Backspace") ==> calls == []
      ensures value == old(value) && isSaving == old(isSaving)
    {
      calls := [];
      if key == "Enter" && !shift {
        calls := EnterCalls(blockType, value, editValue, hasOnEnter);
      } else if key == "Escape" {
        editValue := value;
        isEditing := false;
      } else if key == "Backspace" && editValue == "" && hasOnDelete {
        calls := [Delete];
      }
    }

    /** `handleChange`: the handler itself accepts any text. */
    method Change(newValue: string)
      modifies this
      ensures editValue == newValue
      ensures value == old(value) && isEditing == old(isEditing) && isSaving == old(isSaving)
    {
      editValue := newValue;
    }

    /** `handleTypeChange`: forwarded only when `onTypeChange` is given. */
    method ChangeType(newType: BlockType) returns (calls: seq<BlockCall>)
      ensures calls == if hasOnTypeChange then [TypeChange(newType)] else []
    {
      calls := if hasOnTypeChange then [TypeChange(newType)] else [];
    }
  }
}

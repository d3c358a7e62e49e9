/** The inline editable text used across the dashboard: a label that turns into an input (or a
    text area) on click, saves its trimmed text on blur when it changed, reverts on Escape, and
    rejects input beyond an optional length cap. */
module EditableText {
  import opened Common
  import opened Text

  /** What the blur handler passes to `onChange`: the trimmed edit text, and only when it
      differs from the current `value`. */
  function BlurSave(value: string, editValue: string): (r: Option<string>)
    ensures r.Some? <==> Trim(editValue) != value
    ensures r.Some? ==> r.value == Trim(editValue) && Trimmed(r.value) && r.value != value
  {
    var t := Trim(editValue);
    if t != value then Some(t) else None
  }

  /** Once the parent has stored a saved text (and the prop resync has copied it back into the
      edit text), blurring again saves nothing. */
  lemma BlurSaveSettles(value: string, editValue: string)
    requires BlurSave(value, editValue).Some?
    ensures BlurSave(BlurSave(value, editValue).value, BlurSave(value, editValue).value).None?
  {
    TrimIdempotent(editValue);
  }

  /** A blur that leaves the trimmed text equal to `value` saves nothing, even when the raw edit
      text still has padding. */
  lemma PaddingAloneIsNotSaved(value: string, before: string, after: string)
    requires AllWhitespace(before) && AllWhitespace(after) && Trimmed(value)
    ensures BlurSave(value, before + value + after).None?
  {
    TrimPadded(before, value, after);
  }

  /** What one blur does once editing ends: the `onChange` argument, whether the saving flag
      stays set, and whether `onBlurEmpty` fires. */
  datatype BlurEffect = BlurEffect(saved: Option<string>, stillSaving: bool, blurEmpty: bool)

  /** The blur decision: save the trimmed text only when it changed; a save whose `onChange`
      throws leaves the saving flag set and skips the empty notification; otherwise an empty
      trimmed text, saved or not, notifies the parent. */
  function BlurOf(value: string, editValue: string, saveThrows: bool): (r: BlurEffect)
    ensures r.saved == BlurSave(value, editValue)
    ensures r.stillSaving <==> r.saved.Some? && saveThrows
    ensures r.blurEmpty <==> !r.stillSaving && Trim(editValue) == ""
  {
    var saved := BlurSave(value, editValue);
    var stuck := saved.Some? && saveThrows;
    BlurEffect(saved, stuck, !stuck && Trim(editValue) == "")
  }

  /** `onBlurEmpty` fires for an emptied text even when nothing is saved: clearing an already
      empty value notifies without calling `onChange`. */
  lemma EmptyBlurWithoutSave(editValue: string, saveThrows: bool)
    requires AllWhitespace(editValue)
    ensures BlurOf("", editValue, saveThrows) == BlurEffect(None, false, true)
  {
    TrimEmptyIffBlank(editValue);
  }

  /** `s.length`: JavaScript counts UTF-16 code units, so a character outside the Basic
      Multilingual Plane counts twice. */
  function Utf16Length(s: string): (n: nat)
    ensures |s| <= n <= 2 * |s|
    ensures (forall k :: 0 <= k < |s| ==> s[k] as int <= 0xFFFF) ==> n == |s|
  {
    if s == [] then 0 else (if s[0] as int > 0xFFFF then 2 else 1) + Utf16Length(s[1..])
  }

  /** `!(maxLength && newValue.length > maxLength)`: an unset or zero cap accepts everything. */
  predicate Accepts(maxLength: Option<nat>, newValue: string) {
    maxLength.None? || maxLength.value == 0 || Utf16Length(newValue) <= maxLength.value
  }

  /** Every text the change handler accepts respects a positive cap, and every text within the
      cap is accepted. */
  lemma AcceptsIffWithinCap(cap: nat, newValue: string)
    requires cap > 0
    ensures Accepts(Some(cap), newValue) <==> Utf16Length(newValue) <= cap
    ensures |newValue| > cap ==> !Accepts(Some(cap), newValue)
  {
  }

  /** A single character outside the Basic Multilingual Plane already exceeds a cap of one. */
  lemma AstralCharOverCapOne(c: char)
    requires c as int > 0xFFFF
    ensures !Accepts(Some(1), [c])
  {
    assert [c][1..] == [];
  }

  /** What the component renders. The empty placeholder span of the read-only branch is
      unreachable: an empty value with hidden placeholder and no save in flight renders
      nothing, and with a save in flight the saving notice wins. */
  datatype Appearance =
    | Hidden
    | Editor(text: string, multiline: bool, saving: bool)
    | SavingNotice
    | Shown(text: string)

  class NotionEditableText {
    var value: string
    var editValue: string
    var isEditing: bool
    var isSaving: bool
    const placeholder: string
    const multiline: bool
    const maxLength: Option<nat>
    const disabled: bool
    const showPlaceholderText: bool

    /** Mounting: not editing, not saving, edit text equal to the value. */
    constructor(value: string, placeholder: string, multiline: bool, maxLength: Option<nat>,
                disabled: bool, showPlaceholderText: bool)
      ensures this.value == value && editValue == value && !isEditing && !isSaving
      ensures this.placeholder == placeholder && this.multiline == multiline && this.maxLength == maxLength
      ensures this.disabled == disabled && this.showPlaceholderText == showPlaceholderText
    {
      this.value := value;
      editValue := value;
      isEditing := false;
      isSaving := false;
      this.placeholder := placeholder;
      this.multiline := multiline;
      this.maxLength := maxLength;
      this.disabled := disabled;
      this.showPlaceholderText := showPlaceholderText;
    }

    /** The render: nothing exactly when not editing, the value is empty, the placeholder is
        hidden and no save is in flight. */
    function View(): (r: Appearance)
      reads this
      ensures r.Hidden? <==> !isEditing && value == "" && !showPlaceholderText && !isSaving
      ensures r.Editor? <==> isEditing
      ensures r.Editor? ==> r.text == editValue && r.multiline == multiline && r.saving == isSaving
      ensures r.SavingNotice? <==> !isEditing && isSaving
      ensures r.Shown? ==> r.text == (if value != "" then value else placeholder)
    {
      if !isEditing && value == "" && !showPlaceholderText && !isSaving then Hidden
      else if isEditing then Editor(editValue, multiline, isSaving)
      else if isSaving then SavingNotice
      else Shown(if value != "" then value else placeholder)
    }

    /** The `[value]` effect: a new `value` prop replaces the edit text. */
    method PropChange(newValue: string)
      modifies this
      ensures value == newValue
      ensures editValue == if newValue != old(value) then newValue else old(editValue)
      ensures isEditing == old(isEditing) && isSaving == old(isSaving)
    {
      if newValue != value {
        value := newValue;
        editValue := newValue;
      }
    }

    /** `handleClick`: editing starts unless disabled or already editing. */
    method Click()
      modifies this
      ensures isEditing == (old(isEditing) || !disabled)
      ensures value == old(value) && editValue == old(editValue) && isSaving == old(isSaving)
    {
      if disabled || isEditing {
        return;
      }
      isEditing := true;
    }

    /** `handleBlur`, with the awaited `onChange` either settling or throwing (`saveThrows`).
        Returns the one `onChange` argument, if any, and whether `onBlurEmpty` fires. */
    method Blur(saveThrows: bool) returns (saved: Option<string>, blurEmpty: bool)
      modifies this
      ensures !old(isEditing) ==> saved.None? && !blurEmpty && isEditing == old(isEditing) && isSaving == old(isSaving)
      ensures old(isEditing) ==>
        var effect := BlurOf(old(value), old(editValue), saveThrows);
        !isEditing && saved == effect.saved && blurEmpty == effect.blurEmpty
        && isSaving == (if effect.saved.Some? then effect.stillSaving else old(isSaving))
      ensures value == old(value) && editValue == old(editValue)
    {
      saved, blurEmpty := None, false;
      if !isEditing {
        return;
      }
      var effect := BlurOf(value, editValue, saveThrows);
      isEditing := false;
      if effect.saved.Some? {
        isSaving := effect.stillSaving;
      }
      saved, blurEmpty := effect.saved, effect.blurEmpty;
    }

    /** `handleKeyDown`: Enter in a single-line input blurs it (so saving goes through `Blur`);
        Escape restores the value and stops editing; every other key is left to the input. */
    method KeyDown(key: string, saveThrows: bool) returns (saved: Option<string>, blurEmpty: bool)
      modifies this
      ensures key == "Enter" && !multiline && old(isEditing) ==>
        var effect := BlurOf(old(value), old(editValue), saveThrows);
        !isEditing && saved == effect.saved && blurEmpty == effect.blurEmpty
        && isSaving == (if effect.saved.Some? then effect.stillSaving else old(isSaving))
        && editValue == old(editValue)
      ensures key == "Enter" && !multiline && !old(isEditing) ==>
        saved.None? && !blurEmpty && isEditing == old(isEditing) && isSaving == old(isSaving)
        && editValue == old(editValue)
      ensures key == "Escape" || (key == "Enter" && multiline) || (key != "Enter" && key != "Escape") ==> saved.None? && !blurEmpty
      ensures key == "Escape" ==> editValue == value && !isEditing && isSaving == old(isSaving)
      ensures key != "Escape" && !(key == "Enter" && !multiline) ==>
        editValue == old(editValue) && isEditing == old(isEditing) && isSaving == old(isSaving)
      ensures value == old(value)
    {
      saved, blurEmpty := None, false;
      if key == "Enter" && !multiline {
        saved, blurEmpty := Blur(saveThrows);
      } else if key == "Escape" {
        editValue := value;
        isEditing := false;
      }
    }

    /** `handleChange`: a text over a positive cap is refused and the edit text stays. */
    method Change(newValue: string)
      modifies this
      ensures editValue == if Accepts(maxLength, newValue) then newValue else old(editValue)
      ensures value == old(value) && isEditing == old(isEditing) && isSaving == old(isSaving)
    {
      if !Accepts(maxLength, newValue) {
        return;
      }
      editValue := newValue;
    }
  }
}

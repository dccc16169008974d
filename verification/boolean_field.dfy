/** The boolean field's editing operations (creatio_tests/fields/boolean.py):
    the checkbox is clicked only when its state differs from the target. */
module BooleanField {
  import opened Wrappers
  import opened Values
  import opened Fields
  import OverlayService

  /** What setting the checkbox did: the `(ok, message)` pair, and how many
      times the checkbox was toggled. */
  datatype Toggle = Toggle(ok: bool, message: string, toggles: nat)

  /** The checkbox state as the field reads it: an unreadable state counts as
      unchecked. */
  function Current(cb: Checkbox): bool {
    cb.selected.GetOr(false)
  }

  /** `BooleanField.set_value(container, value)`. */
  function SetValue(c: Container, value: Value): (r: Toggle)
    ensures c.checkbox.None? ==> !r.ok && r.toggles == 0 && r.message == "checkbox not found: " + c.driverError
    ensures c.checkbox.Some? && Current(c.checkbox.value) == Truthy(value) ==>
      r == Toggle(true, "value unchanged", 0)
    ensures c.checkbox.Some? && Current(c.checkbox.value) != Truthy(value) ==>
      (r.ok <==> c.checkbox.value.click != OverlayService.Unclickable) &&
      r.toggles == (if r.ok then 1 else 0)
    ensures r.ok && r.toggles == 1 ==>
      r.message == (if c.checkbox.value.click == OverlayService.Clicked then "value toggled" else "value toggled via JS")
    ensures (c.checkbox.Some? && Current(c.checkbox.value) != Truthy(value) &&
      c.checkbox.value.click == OverlayService.Unclickable) ==> r.message == "cannot toggle: " + c.driverError
    ensures r.toggles <= 1
  {
    match c.checkbox
    case None => Toggle(false, "checkbox not found: " + c.driverError, 0)
    case Some(cb) =>
      if Current(cb) == Truthy(value) then Toggle(true, "value unchanged", 0)
      else match cb.click
        case Clicked => Toggle(true, "value toggled", 1)
        case ClickedViaJs => Toggle(true, "value toggled via JS", 1)
        case Unclickable => Toggle(false, "cannot toggle: " + c.driverError, 0)
  }

  /** `BooleanField.clear_value(container)`: setting the value `False`. */
  function ClearValue(c: Container): (r: Toggle)
    ensures r == SetValue(c, Bool(false))
    ensures c.checkbox.Some? && !Current(c.checkbox.value) ==> r == Toggle(true, "value unchanged", 0)
  {
    SetValue(c, Bool(false))
  }

  /** The container after a set: a toggle flips the checkbox, and a toggled
      checkbox reads back as its new state. */
  function After(c: Container, r: Toggle): Container
    requires c.checkbox.Some?
  {
    if r.toggles > 0 then c.(checkbox := Some(c.checkbox.value.(selected := Some(!Current(c.checkbox.value))))) else c
  }

  /** Setting the same value twice toggles at most once in all: the second
      call finds the target state and leaves the checkbox alone. */
  lemma SecondSetIsUnchanged(c: Container, value: Value)
    requires c.checkbox.Some? && SetValue(c, value).ok
    ensures SetValue(After(c, SetValue(c, value)), value) == Toggle(true, "value unchanged", 0)
    ensures SetValue(c, value).toggles + SetValue(After(c, SetValue(c, value)), value).toggles <= 1
  {
  }

  /** Only the truthiness of the value matters: two values Python treats
      alike set the checkbox alike. */
  lemma OnlyTruthinessMatters(c: Container, v: Value, w: Value)
    requires Truthy(v) == Truthy(w)
    ensures SetValue(c, v) == SetValue(c, w)
  {
  }

  /** A checkbox whose state cannot be read behaves as an unchecked one. */
  lemma UnreadableIsUnchecked(c: Container, value: Value)
    requires c.checkbox.Some? && c.checkbox.value.selected.None?
    ensures SetValue(c, value) == SetValue(c.(checkbox := Some(c.checkbox.value.(selected := Some(false)))), value)
  {
  }
}

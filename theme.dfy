/**
 * The light/dark theme: resolved once at page load from the stored preference
 * (falling back to the environment's light-scheme signal), flipped and persisted
 * by the toggle button, and mirrored into a label, an icon and `aria-pressed`.
 */
module Theme {
  import opened Wrappers

  /** The icon class the label shows: `fa-moon` in dark mode, `fa-sun` in light mode. */
  datatype Glyph = Moon | Sun

  /**
   * The initial theme (true for light) from the value stored under `theme`
   * (None when there is no entry) and the `prefers-color-scheme: light` signal,
   * which is false when `matchMedia` is unavailable.
   */
  function InitialLight(saved: Option<string>, prefersLight: bool): (light: bool)
    ensures saved == Some("light") ==> light
    ensures (saved == None || saved == Some("")) ==> light == prefersLight
    ensures (saved.Some? && saved.value != "" && saved.value != "light") ==> !light
  {
    if saved == Some("light") then true
    else if saved == None || saved == Some("") then prefersLight
    else false
  }

  /** The value written to storage for a theme. */
  function StoredValue(light: bool): (v: string)
    ensures v == "light" || v == "dark"
    ensures forall prefersLight :: InitialLight(Some(v), prefersLight) == light
  {
    if light then "light" else "dark"
  }

  /** The text of the `.theme-text` element. */
  function LabelText(light: bool): (t: string)
    ensures t == "Light" || t == "Dark"
    ensures (t == "Light") == light
  {
    if light then "Light" else "Dark"
  }

  /** `String(isLight)`, the value of `aria-pressed`. */
  function PressedValue(light: bool): (v: string)
    ensures (v == "true") == light && (v == "false") == !light
  {
    if light then "true" else "false"
  }

  /** The icon for a theme. */
  function GlyphFor(light: bool): (g: Glyph)
    ensures g == Sun <==> light
  {
    if light then Sun else Moon
  }

  /**
   * The theme toggle and the DOM it touches: the `light` class on the body, the
   * stored preference, and the label elements, which may be missing from the
   * page (`hasLabel`, `hasText`, `hasIcon`). The label fields hold what the
   * script last wrote, None while it wrote nothing.
   */
  class ThemeControl {
    var light: bool
    var stored: Option<string>
    const hasLabel: bool
    const hasText: bool
    const hasIcon: bool
    var labelText: Option<string>
    var icon: Option<Glyph>
    var ariaPressed: Option<string>

    /** The label, icon and `aria-pressed` show the current theme wherever the script writes them. */
    predicate LabelInSync()
      reads this
    {
      hasLabel ==>
        && ariaPressed == Some(PressedValue(light))
        && (hasText ==> labelText == Some(LabelText(light)))
        && (hasIcon ==> icon == Some(GlyphFor(light)))
    }

    /** Page load: resolve the theme, then `updateThemeLabel()`. Storage is only read. */
    constructor (saved: Option<string>, prefersLight: bool, hasLabel: bool, hasText: bool, hasIcon: bool)
      ensures light == InitialLight(saved, prefersLight) && stored == saved
      ensures this.hasLabel == hasLabel && this.hasText == hasText && this.hasIcon == hasIcon
      ensures LabelInSync()
      ensures !hasLabel ==> labelText == None && icon == None && ariaPressed == None
    {
      light := InitialLight(saved, prefersLight);
      stored := saved;
      this.hasLabel, this.hasText, this.hasIcon := hasLabel, hasText, hasIcon;
      labelText, icon, ariaPressed := None, None, None;
      new;
      UpdateLabel();
    }

    /** `updateThemeLabel()`: nothing when the label is missing; otherwise write text, icon and `aria-pressed`. */
    method UpdateLabel()
      modifies this
      ensures light == old(light) && stored == old(stored)
      ensures LabelInSync()
      ensures !hasLabel ==> labelText == old(labelText) && icon == old(icon) && ariaPressed == old(ariaPressed)
      ensures !hasText ==> labelText == old(labelText)
      ensures !hasIcon ==> icon == old(icon)
    {
      if !hasLabel {
        return;
      }
      if hasText {
        labelText := Some(LabelText(light));
      }
      if hasIcon {
        icon := Some(GlyphFor(light));
      }
      ariaPressed := Some(PressedValue(light));
    }

    /** A click on the toggle: flip the theme, persist it, refresh the label. */
    method Toggle()
      modifies this
      ensures light == !old(light)
      ensures stored == Some(StoredValue(light))
      ensures LabelInSync()
      ensures !hasLabel ==> labelText == old(labelText) && icon == old(icon) && ariaPressed == old(ariaPressed)
      ensures !hasText ==> labelText == old(labelText)
      ensures !hasIcon ==> icon == old(icon)
    {
      light := !light;
      stored := Some(StoredValue(light));
      UpdateLabel();
    }
  }

  /** Two clicks restore the theme, and storage then holds that theme's own value. */
  method ToggleTwice(t: ThemeControl)
    modifies t
    ensures t.light == old(t.light)
    ensures t.stored == Some(StoredValue(t.light))
    ensures old(t.stored) == Some(StoredValue(old(t.light))) ==> t.stored == old(t.stored)
    ensures t.LabelInSync()
  {
    t.Toggle();
    t.Toggle();
  }
}

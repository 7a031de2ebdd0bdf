/**
 * The image preview: `.view-link` anchors open the `#lightbox` overlay showing
 * the linked image; the close button, a click on the backdrop and the Escape
 * key close it.
 */
module Lightboxes {
  import opened Wrappers
  import opened Text

  const PlaceholderAlt := "Preview image"

  /** `alt || 'Preview image'`: the alternative text the preview image gets. */
  function AltOrPlaceholder(alt: string): (r: string)
    ensures r != []
    ensures alt != [] ==> r == alt
    ensures alt == [] ==> r == PlaceholderAlt
  {
    if alt != [] then alt else PlaceholderAlt
  }

  /** `a.getAttribute('aria-label') || a.textContent.trim()`: the label a view link passes on. */
  function LinkLabel(ariaLabel: Option<string>, text: string): (r: string)
    ensures ariaLabel.Some? && ariaLabel.value != [] ==> r == ariaLabel.value
    ensures ariaLabel.None? || ariaLabel == Some([]) ==> r == Trim(text)
  {
    if ariaLabel.Some? && ariaLabel.value != [] then ariaLabel.value else Trim(text)
  }

  /**
   * A preview opened from a view link never has blank alternative text, unless
   * the link carries an `aria-label` made of white space only: a blank link text
   * falls through to the placeholder.
   */
  lemma PreviewAltNotBlank(ariaLabel: Option<string>, text: string)
    ensures !(ariaLabel.Some? && ariaLabel.value != [] && IsBlank(ariaLabel.value)) ==>
      !IsBlank(AltOrPlaceholder(LinkLabel(ariaLabel, text)))
    ensures ariaLabel.None? || ariaLabel == Some([]) ==>
      AltOrPlaceholder(LinkLabel(ariaLabel, text)) == if IsBlank(text) then PlaceholderAlt else Trim(text)
  {
    if ariaLabel.None? || ariaLabel == Some([]) {
      var t := Trim(text);
      if t != [] {
        assert !IsSpace(t[0]);
        assert !IsBlank(t);
      } else {
        assert !IsSpace(PlaceholderAlt[0]);
        assert !IsBlank(PlaceholderAlt);
      }
    }
  }

  /** The `#lightbox` overlay and its `#lightboxImage`. */
  class Lightbox {
    /** Whether the page has the overlay; every operation does nothing without it. */
    const present: bool
    /** Whether the overlay holds a `.lightbox-close` button. */
    const hasCloseButton: bool
    var hidden: bool
    var src: string
    var alt: string

    constructor (present: bool, hasCloseButton: bool, hidden: bool, src: string, alt: string)
      ensures this.present == present && this.hasCloseButton == hasCloseButton
      ensures this.hidden == hidden && this.src == src && this.alt == alt
    {
      this.present, this.hasCloseButton := present, hasCloseButton;
      this.hidden, this.src, this.alt := hidden, src, alt;
    }

    /** `openLightbox(src, alt)`. */
    method Open(src: string, alt: string)
      modifies this
      ensures !present ==> hidden == old(hidden) && this.src == old(this.src) && this.alt == old(this.alt)
      ensures present ==> !hidden && this.src == src && this.alt == AltOrPlaceholder(alt)
    {
      if !present {
        return;
      }
      this.src := src;
      this.alt := AltOrPlaceholder(alt);
      hidden := false;
    }

    /** `closeLightbox()`: the alternative text is left as it was. */
    method Close()
      modifies this
      ensures !present ==> hidden == old(hidden) && src == old(src)
      ensures present ==> hidden && src == []
      ensures alt == old(alt)
    {
      if !present {
        return;
      }
      hidden := true;
      src := [];
    }

    /**
     * A click on a view link with the given `href` attribute, `aria-label` and
     * text; a link without `href` passes `null`, which `src` takes as the text `null`.
     */
    method ViewLinkClicked(href: Option<string>, ariaLabel: Option<string>, text: string)
      modifies this
      ensures !present ==> hidden == old(hidden) && src == old(src) && alt == old(alt)
      ensures present ==> !hidden && alt == AltOrPlaceholder(LinkLabel(ariaLabel, text))
      ensures present && href.Some? ==> src == href.value
      ensures present && href == None ==> src == "null"
    {
      var source := if href.Some? then href.value else "null";
      Open(source, LinkLabel(ariaLabel, text));
    }

    /** A click on the close button; without one there is nothing to click. */
    method CloseButtonClicked()
      modifies this
      ensures present && hasCloseButton ==> hidden && src == []
      ensures !(present && hasCloseButton) ==> hidden == old(hidden) && src == old(src)
      ensures alt == old(alt)
    {
      if hasCloseButton {
        Close();
      }
    }

    /** A click inside the overlay; only one whose target is the backdrop itself closes it. */
    method OverlayClicked(onBackdrop: bool)
      modifies this
      ensures present && onBackdrop ==> hidden && src == []
      ensures !(present && onBackdrop) ==> hidden == old(hidden) && src == old(src)
      ensures alt == old(alt)
    {
      if present && onBackdrop {
        Close();
      }
    }

    /** A `keydown` anywhere in the document. */
    method KeyDown(key: string)
      modifies this
      ensures present && key == "Escape" ==> hidden && src == []
      ensures !(present && key == "Escape") ==> hidden == old(hidden) && src == old(src)
      ensures alt == old(alt)
    {
      if key == "Escape" {
        Close();
      }
    }
  }
}

# Portfolio page script, modelled in Dafny

This project models the logic of `script.js`, the script behind a personal
portfolio page. The script does six things:

- **Theme.** It picks the light or dark theme at load time. The stored
  `theme` preference decides; when there is none, the `prefers-color-scheme:
  light` signal decides. A toggle button flips the theme and stores it. A label
  mirrors the theme in its text, its icon and `aria-pressed`.
- **Menu.** The mobile menu button switches the nav links' inline `display`
  between `flex` and the empty string.
- **Floating labels.** Every `.field` input and textarea has a `filled` class.
  `input`, `blur` and page load set it exactly when the trimmed value is not
  empty. `focus` always sets it.
- **Contact form.** The `submit` handler refuses a form with a blank field. A
  usable `data-endpoint` is one that is set and does not contain the
  `yourFormID` placeholder. With one, the handler posts the trimmed values and
  the metadata to it. With none, or when the post fails, it opens the user's
  mail client on a `mailto:` URI. The button is marked busy while this runs,
  and a toast reports the result.
- **Toast.** `showToast` shows a message in the `#toast` region, or calls
  `alert` when the page has no such region. A timer fades the toast out, and a
  second timer hides it 300 ms later.
- **Lightbox.** `.view-link` anchors open an image preview. The close button,
  a click on the backdrop and the Escape key close it.

Modules:

- `Wrappers`: the `Option` type.
- `Text`: the JavaScript string built-ins the script uses. `trim` is modelled
  with the full ECMAScript white-space and line-terminator set. Also
  `includes`, `join`, and a `split` that is the partner of `join`.
- `Uri`: `encodeURIComponent` as RFC 3986 section 2.1 percent-encoding of
  UTF-8. A strict percent-decoder is its partner, and `DecodeEncode` proves
  the round trip.
- `Mail`: the `mailto:` URI of `openMailClient` (RFC 6068 section 2). Its
  partner is a parser that reads the recipient, subject and body back.
- `Theme`, `Menu`, `Labels`, `Toasts`, `Lightboxes`: one class per piece of
  page state the script updates in place. Each sits beside the pure functions
  that specify it.
- `Contact`: the `submit` handler.
  - `SubmitEffects` is the reference definition. It gives the list of
    observable steps one submission takes: toasts, marking the button busy,
    the post, the error log, the call to `openMailClient`, clearing the form,
    restoring the button.
  - The lemmas beside it state the routing properties.
  - The `ContactForm` class runs the handler step by step. It is proved to
    produce exactly those steps, and to navigate to the `mailto:` URI exactly
    when the route falls back to the mail client.

The browser supplies inputs, which the model takes as parameters:

- the stored preference and the colour-scheme signal;
- the field values;
- the `data-endpoint` attribute;
- the date, the user agent and the page URL;
- the outcome of the `fetch`: an `ok` response, another response, or a thrown
  error.

## Model

| member | source | states |
|---|---|---|
| `Text.Trim` | script.js:57 | `trim()`: the result is a contiguous middle part of the input; everything cut away is white space; a non-empty result neither starts nor ends with white space; the result is empty exactly when the input is all white space |
| `Text.Contains` | script.js:94 | `includes`: true exactly when the pattern occurs at some position of the text |
| `Text.SplitJoin` | script.js:149 | splitting `join` output at its one-character separator gives back every part before the last (when those hold no separator), followed by the split of the last part |
| `Text.SplitWithout` | script.js:149 | text without the separator splits into itself alone |
| `Uri.EncodeURIComponent` | script.js:138 | `encodeURIComponent` output holds only `%` and the characters the encoder keeps (`A-Z a-z 0-9 - _ . ! ~ * ' ( )`), so it holds no `?`, `&` or `=`; text made only of kept characters comes out unchanged; the output is never shorter than the input |
| `Uri.DecodeEncodedChar` | script.js:149 | the percent-decoder reads each character back from its own UTF-8 escape sequence (one to four `%XY` groups), whatever follows |
| `Uri.DecodeEncode` | script.js:149 | percent-decoding undoes `encodeURIComponent` for every string |
| `Mail.BodyLines` | script.js:139-148 | the body has eight lines: the five header lines, an empty line, `Message:`, then the message |
| `Mail.MailtoUri` | script.js:149-150 | the navigation target starts with the `mailto:` scheme; its body is `Body`, the lines of `BodyLines` joined with line feeds as line 149 does |
| `Mail.ParseMailtoUri` | script.js:136-150 | a mail client reading the URI gets exactly the fixed recipient, the subject `Portfolio contact from <name>` and the body text |
| `Mail.ParseMailtoShape` | script.js:150 | a URI `mailto:<to>?subject=<s>&body=<b>` is read back as its address and its decoded header values when the address has no `?` and `<s>` has no `&` |
| `Mail.BodyLinesBack` | script.js:139-149 | splitting the body at line feeds gives the seven header lines and then the lines of the message, when the name, email and metadata hold no line feed |
| `Mail.BodyRoundTrip` | script.js:139-149 | with a single-line message as well, the body splits back into exactly the eight lines |
| `Theme.InitialLight` | script.js:10-15 | stored `light` gives light; no stored value or an empty one follows the light-scheme signal; any other stored value gives dark whatever the signal |
| `Theme.StoredValue` | script.js:43 | the stored value is `light` or `dark`, and reading it back at the next load gives the same theme whatever the signal |
| `Theme.LabelText` | script.js:27 | the label reads `Light` exactly in light mode, and `Dark` otherwise |
| `Theme.PressedValue` | script.js:34 | `aria-pressed` is `"true"` exactly in light mode and `"false"` exactly in dark mode |
| `Theme.GlyphFor` | script.js:30-31 | the icon is the sun exactly in light mode |
| `Theme.ThemeControl.constructor` | script.js:10-37 | page load resolves the theme by `InitialLight`, leaves storage as it was, and leaves the label in step with the theme |
| `Theme.ThemeControl.UpdateLabel` | script.js:19-36 | `updateThemeLabel` keeps theme and storage; with the label present, text, icon and `aria-pressed` show the theme; without it nothing is written, and a missing text element or icon is left alone |
| `Theme.ThemeControl.Toggle` | script.js:40-45 | a click flips the theme, stores that theme's value and leaves the label in step; a missing text element or icon is left alone |
| `Theme.ToggleTwice` | script.js:40-45 | two clicks restore the theme; storage then holds that theme's value, which is the earlier stored value when that one matched the theme |
| `Menu.NextDisplay` | script.js:49-50 | the next display is `flex` exactly when the current one is not `flex`, and `''` otherwise |
| `Menu.NextDisplayTwice` | script.js:48-51 | from `''` or `flex`, two clicks restore the display |
| `Menu.NavMenu.Toggle` | script.js:48-51 | a click sets the display to `NextDisplay` of the old one |
| `Labels.FilledIff` | script.js:57 | `Filled`, the test `value.trim().length` of line 57, holds exactly when the value has a character that is not white space |
| `Labels.FieldList.constructor` | script.js:55-64 | after the `forEach` at load, every field's `filled` class agrees with its trimmed value |
| `Labels.FieldList.Check` | script.js:56-59 | `check` sets field `i`'s class to whether its value is filled, and changes nothing else |
| `Labels.FieldList.Input` | script.js:60 | typing stores the new value and `check` marks the field by that value |
| `Labels.FieldList.Blur` | script.js:61 | on `blur` the field is marked by its current value |
| `Labels.FieldList.Focus` | script.js:62 | on `focus` the field is marked filled whatever its value |
| `Labels.FieldList.Reset` | script.js:112 | after a successful send the values return to their defaults and no field is marked filled |
| `Toasts.Duration` | script.js:169 | `opts.duration` or else 3500 is positive: a positive request is used, and a missing or zero one gives 3500 |
| `Toasts.Shown` | script.js:159-169 | the toast becomes visible with the new text and the `show` class; the timer in `_hideTimeout` is replaced by a fresh fade-out timer with the chosen duration; timers outside the slot survive; fresh identifiers stay fresh |
| `Toasts.AfterTimerAsWritten` | script.js:165-168 | the script's own timer step: the fade-out timer removes `show`, adds `hide` and arms a 300 ms hide timer that no field keeps, leaving `_hideTimeout` empty; the toast's own hide timer hides it; a hide timer that no field keeps hides the toast when it fires, whatever was shown since; a timer that is not pending changes nothing |
| `Toasts.AfterTimer` | script.js:165-168 | with the hide timer kept in `_hideTimeout`, only the toast's own hide timer (or a stray one) hides it; no stray timer appears; identifiers stay fresh; a timer that is not pending changes nothing |
| `Toasts.VisibleUntilOwnTimer` | script.js:164-169 | corrected: when no earlier hide timer is still pending, after `showToast` the toast stays visible under any sequence of timer events until the fade-out timer that call armed has fired |
| `Toasts.HidesAfterBothTimers` | script.js:165-168 | corrected: the fade-out timer and then the hide timer do hide the toast |
| `Toasts.HidesAfterBothTimersAsWritten` | script.js:165-168 | as written, the fade-out timer and then the stray hide timer it arms do hide the toast |
| `Toasts.SecondToastHiddenEarlyAsWritten` | script.js:164-168 | as written, a second toast shown while the first one's hide timer is pending is hidden when that timer fires, with its own fade-out timer still pending |
| `Toasts.SecondToastVisible` | script.js:164-168 | with the hide timer kept in `_hideTimeout`, the same events leave the second toast visible, with its own fade-out timer still pending |
| `Toasts.Toast.Show` | script.js:156-169 | with the region present, the element's state becomes `Shown` of the old state (stray hide timers included) and no alert is raised; without it, the state is unchanged and the message goes to `alert` |
| `Toasts.Toast.TimerFiredAsWritten` | script.js:165-168 | as written, a timer event moves the element's state by `AfterTimerAsWritten`: the fade-out timer arms a stray hide timer, and a stray hide timer hides the toast; identifiers stay fresh |
| `Toasts.Toast.TimerFired` | script.js:165-168 | corrected: a timer event moves the element's state by `AfterTimer`, where the hide timer is kept in `_hideTimeout`; identifiers stay fresh |
| `Lightboxes.AltOrPlaceholder` | script.js:181 | the alternative text is never empty: the given text when it is not empty, `Preview image` otherwise |
| `Lightboxes.LinkLabel` | script.js:197 | a view link passes its non-empty `aria-label`, or else its trimmed text |
| `Lightboxes.PreviewAltNotBlank` | script.js:181-197 | a preview opened from a view link never gets blank alternative text unless the link's `aria-label` is all white space; without an `aria-label` it gets the trimmed text or, when that is blank, the placeholder |
| `Lightboxes.Lightbox.Open` | script.js:178-184 | opening shows the overlay with the given source and `AltOrPlaceholder` of the alt text; without the overlay nothing changes |
| `Lightboxes.Lightbox.Close` | script.js:186-190 | closing hides the overlay and empties the image source, keeping the alt text; without the overlay nothing changes |
| `Lightboxes.Lightbox.ViewLinkClicked` | script.js:193-199 | a view-link click opens the preview on the link's `href`, or on the text `null` when the link has none, with the link's label |
| `Lightboxes.Lightbox.CloseButtonClicked` | script.js:202 | the close button closes the preview; with no button or no overlay nothing changes |
| `Lightboxes.Lightbox.OverlayClicked` | script.js:205-207 | only a click whose target is the backdrop itself closes the preview |
| `Lightboxes.Lightbox.KeyDown` | script.js:210-212 | Escape closes the preview; any other key changes nothing |
| `Contact.UsableEndpoint` | script.js:94 | the endpoint is usable exactly when it is not empty and `yourFormID` occurs nowhere in it |
| `Contact.UserAgentOrUnknown` | script.js:85 | the user agent in the metadata is never empty: the browser's when it has one, `unknown` when it is empty |
| `Contact.RouteRejected` | script.js:75-78 | a submission is rejected exactly when a trimmed field is empty |
| `Contact.RouteCases` | script.js:94-127 | the form posts exactly when it is complete with a usable endpoint; it goes straight to the mail client exactly when it is complete without one; each fetch outcome picks its branch |
| `Contact.SubmitEffects` | script.js:69-132 | an incomplete form shows only the error toast, with no busy state, post or mail client; a complete one marks the button busy first and restores it last. The steps are built from `Complete` (the blank-field test of line 75), `EndpointOf` (the `data-endpoint` attribute, or the empty string without one, line 80), `MetaOf` (the metadata of lines 83-87), `PayloadOf` (the payload of lines 97-102) and `Notice` with `Message.Wording` (the five toast texts and kinds of lines 76, 111, 115, 120 and 126) |
| `Contact.SubmitPostsOnce` | script.js:94-108 | the form posts exactly when it is complete with a usable endpoint, once, right after marking the button busy, with the trimmed values and the metadata |
| `Contact.SubmitFallsBack` | script.js:113-127 | the mail client is opened exactly when the form is complete and no `ok` response came from a usable endpoint, always with the trimmed values and the metadata |
| `Contact.SubmitClearsOnlyOnSuccess` | script.js:110-122 | the form is cleared exactly after an `ok` response, and the error is logged exactly when the fetch throws |
| `Contact.SubmitNotifiesOnce` | script.js:69-132 | every submission shows exactly one toast, the one its route calls for |
| `Contact.FallbackMailContent` | script.js:116-150 | the mail client opened by the fallback receives the fixed recipient, the subject naming the trimmed sender name, and the eight-line body of the trimmed values and metadata |
| `Contact.ContactForm.Notify` | script.js:156-169 | `showToast` from the handler updates the page's toast by `Shown`, or raises an alert, and records the notice |
| `Contact.ContactForm.OpenMailClient` | script.js:136-153 | the call to `openMailClient` is recorded with its arguments, and `window.location.href` becomes `MailtoUri` of those arguments |
| `Contact.ContactForm.Deliver` | script.js:110-112 | an `ok` response records the post, shows the thank-you toast and resets the form's controls, without navigating |
| `Contact.ContactForm.FallBack` | script.js:113-126 | a failed post or a missing endpoint takes its route's steps in source order, shows that route's toast, and navigates to `MailtoUri` of the arguments |
| `Contact.ContactForm.Dispatch` | script.js:94-127 | after validation, the steps are those of `Dispatched` for the route; the toast shows that route's message; the fields are reset exactly on delivery and untouched otherwise; the page navigates to the `mailto:` URI exactly on the routes that fall back, and stays put otherwise |
| `Contact.ContactForm.Proceed` | script.js:89-131 | a complete form marks the button busy, dispatches, then clears the busy mark and restores the button text; the steps are `SubmitEffects`; the form is reset only on delivery; a fallback navigates to `FallbackUri` of the trimmed values and the metadata |
| `Contact.ContactForm.Submit` | script.js:69-132 | the steps taken are exactly `SubmitEffects` of the field values before the call; the button text is restored and the busy mark is cleared; the toast shows the route's message; the fields are reset exactly when the message was delivered; the page navigates to `MailtoUri` of the trimmed values and the metadata exactly when the route falls back to the mail client |

## Left out

- The `fetch` is one atomic step whose outcome is a parameter. HTTP, JSON
  serialisation and the `await` are not modelled. Neither are edits made
  during the `await` (lines 116 and 121 read the fields again after it), nor
  overlapping submissions.
- Timers are identifiers and firing events. Real time is not modelled. The
  duration is recorded but not compared with other times.
- The 140 ms delay of `updateThemeLabel` is collapsed: the label is written at
  once. The label text's opacity fade is not modelled.
- `showToast` ignores its `type` option. The model records the kind only in
  the handler's list of steps.
- `alert` and `console.error` are recorded as alerts or steps, not performed.
  The assignment to `window.location.href` is recorded as the form's
  `navigatedTo`; the page that the browser would then load is not modelled.
- `new Date().toISOString()`, `navigator.userAgent`, `location.href`,
  `localStorage` and `matchMedia` are inputs. The `&&` guard on a missing
  `matchMedia` makes the light-scheme signal false.
- DOM lookup, CSS classes used only for styling, and `lightbox.focus` are not
  modelled.
- `themeToggle`, `menuBtn`, `.nav-links`, `#lightboxImage` and the form's
  `#name`, `#email`, `#message` and `.submit` elements are taken to exist.
  The script fails on the first use of a missing one, and that failure is not
  modelled. The submit handler exists only when the form does.
- `form.reset()` restores each field's default value. The defaults are a
  parameter of the field list. Every `.field` input and textarea is taken to
  be inside the contact form, so the reset covers all of them; a `.field`
  control outside the form would keep its value on the page.
- `Theme.InitialLight`: its "dark otherwise" takes the page to load with no
  `light` class on the body. Lines 11 to 14 only ever add the class, so a body
  that already had it would stay light.
- JavaScript strings are UTF-16. Dafny characters are Unicode scalar values,
  so the `URIError` that `encodeURIComponent` throws on a lone surrogate
  cannot arise in the model.
- `Toasts.Toast.TimerFired`: it runs the corrected timer, which keeps the
  300 ms hide timer in `_hideTimeout`. The script's own behaviour is
  `Toasts.Toast.TimerFiredAsWritten`, which follows
  `Toasts.AfterTimerAsWritten`.

## Findings

| source | as written | input that shows it | evidently intended | confidence | as-written member | corrected member |
|---|---|---|---|---|---|---|
| script.js:164-168 | the 300 ms timer that sets `toast.hidden = true` is not stored in `_hideTimeout`, so the next `showToast` cannot cancel it | show a toast; let its 3500 ms timer fire; show a second toast within 300 ms | a toast stays visible until its own fade-out timer has fired | not executed | `Toasts.SecondToastHiddenEarlyAsWritten` | `Toasts.SecondToastVisible` |

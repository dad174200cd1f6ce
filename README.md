# Personal portfolio page: a verified model of its UI logic

The repository is a single client-rendered React page (`PersonalWebsite` in
`app/page.tsx`). Apart from markup and animation it holds a small amount of UI
state logic. This project models that logic in Dafny and proves its properties:

- **Contact form** (`contact_form.dfy`, with `js_text.dfy` and `email_pattern.dfy`).
  `validateForm` checks that name, e-mail and message are not blank after
  `trim()`, and that the untrimmed e-mail contains the unanchored pattern
  `\S+@\S+\.\S+`. `handleSubmit` either records the errors, or enters the
  submitting state and, after its simulated delay, clears the form.
  `handleInputChange` edits one field and blanks that field's error. The form
  state is the class `ContactForm.FormState`.
  - ECMAScript white space, the set shared by `trim` and `\s`, is
    `JsText.IsWhiteSpace`.
  - `trim` is `JsText.Trim`.
  - The regular-expression search is given by its meaning
    (`EmailPattern.ContainsMatch`: some substring has the shape).
    A left-to-right scanner (`EmailPattern.Test`) is proved to decide it.
- **Theme preference** (`theme.dfy`). On hydration the page reads the stored
  "theme" entry, falling back to the system preference. Every change writes
  "dark"/"light" and sets or removes the document's `dark` class. The toggle
  flips the flag. The state is the class `Theme.ThemeState`. Storage and class
  membership are fields; the system preference is a parameter.
- **Active section** (`navigation.dfy`). `handleScroll` scans the ids `home`,
  `about`, `skills`, `portfolio`, `contact` in that order. The first one whose
  element's `[offsetTop, offsetTop + offsetHeight)` contains `scrollY + 100`
  becomes active. Missing elements are skipped. With no hit, the active section
  stays. The element lookup is a parameter returning an `Option<Box>`.
- **Background helpers** (`background.dfy`). The intensity clamp
  `Math.min(Math.abs(latest), 1)` is modelled over `real`. `getParallaxTransform`
  maps its layer to the slow, medium or fast curve.

`handleSubmit`'s `await` is modelled as two steps. `FormState.HandleSubmit` runs
up to the `await`; `FormState.CompleteSubmission` is the continuation after the
delay. `pendingSends` counts the continuations still to run. The theme effects
are modelled as React runs them on hydration. In the commit that sets
`isClient`, the reading effect runs and the applying effect runs with the old
flag. If dark mode was switched on, the applying effect runs again.

## Model

| member | source | states |
|---|---|---|
| JsText.Trim | app/page.tsx:554-566 | `trim()` is empty exactly when every character is ECMAScript white space; a non-empty result starts and ends with non-white space |
| JsText.TrimStartSuffix | app/page.tsx:554-566 | removing leading white space leaves the suffix from the first non-white-space character, and only white space was removed |
| JsText.TrimEndPrefix | app/page.tsx:554-566 | removing trailing white space leaves the prefix up to the last non-white-space character, and only white space was removed |
| JsText.TrimIsSlice | app/page.tsx:554-566 | the trimmed text is a contiguous slice of the input with only white space on either side |
| JsText.TrimIdempotent | app/page.tsx:554-566 | trimming twice gives the same as trimming once |
| EmailPattern.ScanMeaning | app/page.tsx:560 | after each prefix, each scanner flag holds exactly when the matching part of `\S+@\S+\.\S+` ends there, or a whole match has ended |
| EmailPattern.FoundByMeansMatch | app/page.tsx:560 | a whole match ending by the end of the input is the same as some substring matching the pattern |
| EmailPattern.TestIsRegexSearch | app/page.tsx:560 | the scanner answers true exactly when some substring matches `\S+@\S+\.\S+` (unanchored `test`) |
| EmailPattern.BlankNeverMatches | app/page.tsx:558-562 | an all-white-space (or empty) e-mail never contains the pattern |
| EmailPattern.NoAtNoMatch | app/page.tsx:560 | text without an '@' never contains the pattern |
| EmailPattern.MatchInsideText | app/page.tsx:560 | because the pattern is unanchored, any text that contains a match is accepted with any text before and after it |
| EmailPattern.ShortAddressMatches | app/page.tsx:560 | the address a@b.c contains the pattern |
| ContactForm.IsBlank | app/page.tsx:554 | `!value.trim()` holds exactly when the value is all white space |
| ContactForm.LooksLikeEmail | app/page.tsx:560 | the e-mail test holds exactly when the pattern occurs in the untrimmed text |
| ContactForm.FormData.With | app/page.tsx:593 | `{ ...prev, [name]: value }` sets the edited field and keeps the other two |
| ContactForm.Validate | app/page.tsx:551-569 | `name`/`message` keys are present exactly for blank fields, with "Name is required"/"Message is required". The `email` key is present exactly when the e-mail is blank or lacks the pattern: "Email is required" if blank, else "Email is invalid" |
| ContactForm.AllBlankGivesThreeErrors | app/page.tsx:554-566 | all three fields blank gives exactly the keys name, email, message with the three "… is required" messages |
| ContactForm.EmailInvalidExactly | app/page.tsx:558-562 | "Email is invalid" is reported exactly when the trimmed e-mail is non-empty and the pattern is absent; a blank e-mail always gets "Email is required" |
| ContactForm.AcceptedExactly | app/page.tsx:551-578 | validation finds no error exactly when name and message are not blank and the e-mail contains the pattern |
| ContactForm.AddressWithoutAtSign | app/page.tsx:558-562 | with name and message filled in, a non-blank e-mail without '@' yields the e-mail error and nothing else |
| ContactForm.ValidateWellFormed | app/page.tsx:551-569 | every message the validator stores is one of its field's messages |
| ContactForm.FormState.constructor | app/page.tsx:444-450 | the form starts with three empty fields, no errors, not submitting |
| ContactForm.FormState.ValidateForm | app/page.tsx:551-569 | the error dictionary filled by conditional assignment equals `Validate` of the current fields |
| ContactForm.FormState.HandleSubmit | app/page.tsx:571-581 | when validation fails, `formErrors` becomes exactly its result and fields and submitting flag are untouched; otherwise the form is submitting with empty errors and one more completion pending |
| ContactForm.FormState.CompleteSubmission | app/page.tsx:583-588 | after the delay the three fields are "" and the form is not submitting; errors are left as they are |
| ContactForm.FormState.HandleInputChange | app/page.tsx:591-597 | only the edited field changes; a non-empty error under it becomes "", every other error is unchanged; without one, `formErrors` is unchanged |
| ContactForm.SubmitValidForm | app/page.tsx:571-589 | a valid form submitted and left to finish ends with empty fields, not submitting and no errors, also when a field is edited during the delay; the number of pending completions is back where it was |
| ContactForm.SubmitBlankForm | app/page.tsx:571-578 | submitting an all-blank form records exactly the three required errors and changes neither the fields, the submitting flag nor the pending completions |
| Theme.InitialDarkMode | app/page.tsx:496-499 | dark holds iff the stored value is "dark", or it is absent or empty and the system prefers dark |
| Theme.ReloadKeepsChoice | app/page.tsx:496-513 | the value the page writes reads back as the same mode on the next load, whatever the system preference |
| Theme.StoredValueDecides | app/page.tsx:497 | a non-empty stored value decides alone (dark iff it is "dark"); the system preference is then irrelevant |
| Theme.ThemeState.constructor | app/page.tsx:441-442 | the server render is light, not on the client; storage is what an earlier visit left and the document has no `dark` class |
| Theme.ThemeState.ApplyTheme | app/page.tsx:503-513 | on the client, the class is present iff dark and storage holds "dark" iff dark, else "light"; before hydration nothing changes |
| Theme.ThemeState.Hydrate | app/page.tsx:487-513 | after hydration the flag is the initial preference from storage or the system, and it is applied to class and storage |
| Theme.ThemeState.ToggleTheme | app/page.tsx:539-541 | the flag flips and the change is applied; class and storage stay applied on the client |
| Theme.LoadPage | app/page.tsx:487-513 | a page load ends with dark mode iff the initial preference says so, with class and storage agreeing |
| Theme.ToggleTwice | app/page.tsx:539-541 | toggling twice restores the flag, the stored value and the class membership |
| Navigation.FirstCovering | app/page.tsx:520-532 | the index returned is of a section whose element covers the point, with no earlier section covering it; none is returned iff no element covers it |
| Navigation.OnlyCoveringSectionIsSelected | app/page.tsx:523-531 | for any list of sections, when exactly one section's box contains the point, that section is selected, wherever it stands in the list |
| Navigation.NavState.constructor | app/page.tsx:443 | the active section starts as "home" |
| Navigation.NavState.HandleScroll | app/page.tsx:519-533 | the first section in order whose element contains `scrollY + 100` becomes active; missing elements are skipped; with no hit the active section is kept |
| Background.VelocityFactor | app/page.tsx:42 | the factor is the smaller of abs(latest) and 1, and so lies in [0, 1] |
| Background.VelocityFactorKeepsUnitValues | app/page.tsx:35-42 | on the [0, 1] range the velocity curve produces, the clamp is the identity |
| Background.VelocityFactorBySpeed | app/page.tsx:42 | the factor ignores direction and does not decrease with speed |
| Background.VelocityFactorIdempotent | app/page.tsx:42 | clamping twice changes nothing |
| Background.ParallaxTransform | app/page.tsx:80-91 | layer 1 gives medium, layer 2 fast, and every other number (0 included) slow |

## Left out

- JSX rendering, class-name strings, and the static content arrays (skills, projects, timeline, contact info) are presentation.
- framer-motion is a foreign library whose interpolation and clamping cannot be seen. This covers `useScroll`, `useVelocity`, the `useTransform` curves (the velocity curve at line 35 and the parallax curves at lines 48-53) and the `animate`/`transition` props. `ParallaxTransform` therefore returns which curve is chosen, not the curve.
- The pseudo-random layout formulas for particles, shapes, lines, orbs and stars (lines 63-77, 151-430) are IEEE floating-point arithmetic with float `%`. Exact reals would not match them. So the claim that they produce layers 0-2 is not modelled.
- Background.VelocityFactor: JavaScript numbers are modelled as `real`, so NaN and infinities are not covered (`Math.min(NaN, 1)` is NaN).
- Background.ParallaxTransform: the layer is a `real`, so `-0` and NaN have no counterpart. `switch` compares with `===`, under which `-0` equals `0`, so nothing is lost for `-0`.
- Browser services are inputs or fields, not a model of the browser. `localStorage` is the `storedTheme` field. `window.matchMedia` is the `prefersDark` parameter. `document.getElementById` is the `lookup` parameter. `classList` is the `darkClass` field. Registering the scroll listener is the caller invoking `HandleScroll`.
- Navigation.NavState.HandleScroll: `scrollY` and the offsets are integers; fractional `window.scrollY` values are not modelled.
- The `setTimeout` delay and the `alert` in `handleSubmit` are not modelled as timing or concurrency. They became the step between `HandleSubmit` and `CompleteSubmission`.
- The browser's own handling of the `type="email"` input (app/page.tsx:1140) is not modelled. The browser strips leading and trailing ASCII white space from the value. It also blocks the submit event for a non-empty malformed value before `handleSubmit` runs. So in the page, "Email is invalid" only shows for values the browser accepts, such as `a@b`. The model gives the handlers' behaviour on any field value.
- `e.preventDefault()` is not modelled, since it only affects the browser's default form submission.
- `scrollToSection` and the mobile-menu flag `isMenuOpen` are not modelled. They call `scrollIntoView` and set a display flag, with nothing to verify.
- `isClient` of the background component, and the gating of particle generation on it, are only about rendering.
- Strings are sequences of Unicode scalar values, while JavaScript strings are UTF-16 code units. No white-space character lies outside the Basic Multilingual Plane. A character outside it is one non-white-space character here and two there. Neither `trim` nor a pattern built from `\S`, '@' and '.' can tell the two apart.
- `app/layout.tsx` is static metadata and a root layout wrapper, with no logic.

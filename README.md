# BAZA Barbershop landing page — a Dafny model of its logic

The site is a single React page (`src/App.jsx`) for a barbershop. Almost all
of it is markup. This project models the few parts that compute something or
keep state:

- **CountdownTimer** (`Countdown.dfy`): splits the millisecond distance to a
  deadline into days, hours, minutes and seconds. It refreshes once a second
  and stops for good once the deadline has passed.
- **SafeIcon** (`Icons.dfy`): turns a kebab-case icon name into the
  PascalCase name the icon library exports. It uses a fixed table or a
  generic rewrite, and falls back to `HelpCircle` for a name the library
  does not export.
- **useFormHandler** (`BookingForm.dfy`): the booking form's four status
  fields (`isSubmitting`, `isSuccess`, `isError`, `errorMessage`). They
  change on submit, on the endpoint's reply, in the `finally` clean-up and
  on "submit another".
- **PromoSlider** (`PromoSlider.dfy`): the index of the shown promotion. A
  timer advances it round the three promotions and the indicator dots set it
  directly.
- **GallerySection** (`Gallery.dfy`): the single, nullable selected image of
  the full-screen viewer.
- **App** (`PageShell.dfy`): the header's `scrolled` flag, the mobile menu
  toggle and `scrollToSection`.

`Arithmetic.dfy` holds the facts about division that the countdown and the
carousel proofs share.

Pure computations are functions with lemmas. Components that update state
are classes with fields and methods. Timers become explicit calls
(`CountdownTimer.Tick(now)`, `PromoSlider.AutoAdvance()`), and the current
time is a parameter. The network reply is the input datatype
`Reply = Ok(success, message) | NetworkError`. The icon library is a set of
exported names, and the document's element ids are a set passed to
`scrollToSection`.

Three behaviours of the code are easy to misread, and the model keeps them
as written:

- The countdown freezes only when the distance is negative, that is when
  `now > target`. At `now == target` it shows zeros and keeps ticking.
- "Submit another" (`resetForm`) clears the success and error flags and the
  message, but leaves `isSubmitting` alone.
- After a success, a stale `errorMessage` from an earlier failure stays in
  place. It is hidden only because `isError` is false.

## Model

| member | source | states |
|---|---|---|
| `Countdown.Split` | src/App.jsx:161-167 | For a non-negative distance, days >= 0, 0 <= hours < 24, 0 <= minutes < 60 and 0 <= seconds < 60 |
| `Countdown.SplitLosesOnlySubSecond` | src/App.jsx:163-166 | The displayed components add back up to the distance rounded down to a whole second: Millis <= distance < Millis + 1000 |
| `Countdown.SplitUnique` | src/App.jsx:163-166 | Any in-range day/hour/minute/second value within a second of the distance is exactly the split, so the split is the one correct decomposition |
| `Countdown.ModOfMultiple` | src/App.jsx:164-166 | Proof helper for the split, not a model of these lines: taking the remainder by a day and then by an hour is the same as taking the remainder by an hour (the same for hours and minutes, minutes and seconds) |
| `Countdown.CountdownTimer.constructor` | src/App.jsx:151 | A new timer runs and shows all zeros |
| `Countdown.CountdownTimer.Tick` | src/App.jsx:154-169 | A negative distance stops the timer and shows zeros. Otherwise the display is the split of the distance. A stopped timer never changes again, and the display always stays in range |
| `Arithmetic.DivModUnique` | src/App.jsx:163-166 | Proof helper for the split, not a model of these lines: a == q*b + r with 0 <= r < b gives a / b == q and a % b == r |
| `Arithmetic.ModSuccessor` | src/App.jsx:223 | Proof helper for the carousel, not a model of this line: (n + 1) % b is n % b + 1, or 0 when that reaches b |
| `Icons.ToUpper` | src/App.jsx:33 | Maps an ASCII lower-case letter to its capital and keeps every other character; the result is never lower-case |
| `Icons.Resolve` | src/App.jsx:33-36 | An exported converted name is drawn as itself. Any other name falls back to HelpCircle. When HelpCircle is exported, the result is always exported |
| `Icons.Camelize` | src/App.jsx:33 | The global replace of -([a-z]) as a left-to-right scan. Specified by `CamelizeIsPointwise` (it agrees with the position-by-position rewrite) and `CamelizeLength` (one character lost per match) |
| `Icons.Convert` | src/App.jsx:33 | The first character upper-cased, then the rest rewritten. Specified by `OneWord`, `TwoWords`, `ConvertIdempotent` and `NormalizeOutsideTable` |
| `Icons.Normalize` | src/App.jsx:8-33 | The table value for a table key, the generic conversion otherwise. Specified by `NormalizeOutsideTable`, `PascalPassesThrough`, `NormalizeIdempotentOutsideTable` and `Resolve` |
| `Icons.CamelizeIsPointwise` | src/App.jsx:33 | The global replace of -([a-z]) drops every hyphen that comes before a lower-case letter, capitalises that letter and copies everything else |
| `Icons.CamelizeLength` | src/App.jsx:33 | The rewritten rest is shorter than the input by the number of -[a-z] occurrences |
| `Icons.NormalizeOutsideTable` | src/App.jsx:33 | A non-empty name outside the table yields its first character upper-cased, then the rest with each -[a-z] replaced by the capital letter. Its length is the name's length minus the number of such matches |
| `Icons.CamelizeHead` | src/App.jsx:33 | The first output character is the capitalised letter of a leading match, or else the first input character |
| `Icons.CamelizeNoMatchAt` | src/App.jsx:33 | No -[a-z] occurrence starts at a given position of the rewritten text |
| `Icons.CamelizeHasNoMatch` | src/App.jsx:33 | The rewritten text contains no hyphen followed by a lower-case letter |
| `Icons.CamelizeNoMatchIdentity` | src/App.jsx:33 | Text without a -[a-z] occurrence is returned unchanged |
| `Icons.CamelizeIdempotent` | src/App.jsx:33 | Applying the replace twice gives the same result as applying it once |
| `Icons.CamelizeAppend` | src/App.jsx:33 | When the cut does not split a hyphen from its letter, rewriting a concatenation rewrites each piece |
| `Icons.NoHyphenNoMatch` | src/App.jsx:33 | Text without hyphens has no match |
| `Icons.PlainWord` | src/App.jsx:33 | A word without hyphens is copied unchanged |
| `Icons.OneWord` | src/App.jsx:33 | A one-word name converts to the same word with its first letter capitalised |
| `Icons.TwoWords` | src/App.jsx:33 | A two-word kebab-case name converts to both words capitalised and joined (the convention the table's map-pin / MapPin entries follow) |
| `Icons.ConvertIdempotent` | src/App.jsx:33 | Converting a converted name again changes nothing |
| `Icons.KeysStartLower` | src/App.jsx:8-31 | Every table key starts with a lower-case ASCII letter |
| `Icons.NormalizeIdempotentOutsideTable` | src/App.jsx:8-33 | For a name outside the table, normalising twice equals normalising once |
| `Icons.PascalPassesThrough` | src/App.jsx:8-33 | A name that does not start with a lower-case letter and has no hyphen before a lower-case letter is not a table key and normalises to itself, so PascalCase names pass through unchanged |
| `BookingForm.ReportedFailureMessage` | src/App.jsx:69 | The endpoint's message is used when it is non-empty. Otherwise the default 'Что-то пошло не так' is used. The result is never empty |
| `BookingForm.FailureMessage` | src/App.jsx:67-73 | A reported failure shows the endpoint's message or the default one. A network failure shows the fixed network message. The message is never empty |
| `BookingForm.BookingFields.constructor` | src/App.jsx:458-540 | The form holds the given control values |
| `BookingForm.BookingFields.Reset` | src/App.jsx:66 | Every control is empty afterwards and the number of controls is unchanged |
| `BookingForm.FormHandler.View` | src/App.jsx:445-554 | The success panel shows exactly when isSuccess is set. Otherwise the form shows, with a busy submit button exactly while isSubmitting and the error line exactly while isError. The error line shows errorMessage, which is non-empty in a consistent state |
| `BookingForm.FormHandler.constructor` | src/App.jsx:43-46 | All four fields start false or empty, and the page shows the idle form without an error line |
| `BookingForm.FormHandler.BeginSubmit` | src/App.jsx:48-51 | isSubmitting becomes true and isError false. isSuccess and errorMessage are unchanged. Consistency is kept. From the form, the page shows the busy form without an error line |
| `BookingForm.FormHandler.Settle` | src/App.jsx:64-73 | A success sets isSuccess and clears the form. A reported or network failure sets isError with the message that failure calls for and leaves the form alone. Unless the success panel shows, the form shows the error line with that message, under a button that is still busy while isSubmitting is set |
| `BookingForm.FormHandler.Finish` | src/App.jsx:74-76 | isSubmitting becomes false and nothing else changes |
| `BookingForm.FormHandler.HandleSubmit` | src/App.jsx:48-77 | After any reply isSubmitting is false. After a success isSuccess is set, isError is false and the form is cleared. After a failure isError is set with the right message. Started from the form (not the success panel), the page ends on the success panel or on the idle form with the error line for that reply, with success and error never set together |
| `BookingForm.FormHandler.ResetForm` | src/App.jsx:79-83 | isSuccess and isError become false and errorMessage empty. isSubmitting is unchanged. The page shows the form without an error line, busy only if a submission is in flight |
| `PromoSlider.Advance` | src/App.jsx:223 | The next index is in range. It is the next slide, or the first slide after the last one |
| `PromoSlider.AfterTicksWraps` | src/App.jsx:221-225 | From an in-range slide s, k timer ticks show slide (s + k) mod length |
| `PromoSlider.TicksFromFirstSlide` | src/App.jsx:195-223 | From the initial slide 0, k ticks show slide k mod 3 |
| `PromoSlider.PromoSlider.constructor` | src/App.jsx:195 | The carousel starts on the first promotion |
| `PromoSlider.PromoSlider.Current` | src/App.jsx:239-247 | The promotion on screen is one of the three promotions |
| `PromoSlider.PromoSlider.AutoAdvance` | src/App.jsx:222-224 | One tick moves the index as Advance says and keeps it in range |
| `PromoSlider.PromoSlider.Select` | src/App.jsx:253-257 | Clicking dot i shows exactly slide i |
| `Gallery.GallerySection.constructor` | src/App.jsx:267 | No image is selected at first |
| `Gallery.GallerySection.Select` | src/App.jsx:317-324 | Clicking a thumbnail selects exactly that image and replaces any earlier selection |
| `Gallery.GallerySection.Dismiss` | src/App.jsx:352-369 | The backdrop or the close button clears the selection |
| `Gallery.SelectDismissSelect` | src/App.jsx:324-369 | Selecting an image, dismissing it and selecting a second image leaves exactly the second one displayed |
| `PageShell.PageShell.constructor` | src/App.jsx:600-601 | The menu starts closed and the header starts transparent |
| `PageShell.PageShell.HandleScroll` | src/App.jsx:603-606 | scrolled is true exactly when scrollY > 50, with strict comparison, depending only on the latest position |
| `PageShell.PageShell.ScrollToSection` | src/App.jsx:611-617 | An id missing from the document changes nothing. A present id scrolls and closes the mobile menu |
| `PageShell.PageShell.ToggleMobileMenu` | src/App.jsx:661-662 | The burger button flips the menu's open state and nothing else |
| `PageShell.NavTargetsPresent` | src/App.jsx:647-652 | Every navigation button's target id is a section the page renders |
| `PageShell.MenuIconName` | src/App.jsx:665 | The burger button passes 'x' or 'menu', and both are names the icon table spells out |
| `PageShell.MenuIconResolves` | src/App.jsx:665 | The burger button's icon normalises to X while the menu is open and to Menu while it is closed |

## Left out

- JSX rendering, Tailwind class strings and `tailwind.config.js`: these are presentation only.
- framer-motion transitions and the `useInView` reveal triggers: these are visual effects driven by a library.
- `CleanMap`, the map widget: it wraps the maplibre-gl library and the DOM, and its "initialise once" guard is not modelled.
- `fetch`, `FormData`, `response.json()`, the endpoint URL and the placeholder access key: this is network I/O. The model takes the decoded reply as a `Reply`. A body that fails to decode takes the same path as `NetworkError`, as the `catch` does.
- Browser-native `required` validation of the form's controls.
- `setInterval`/`clearInterval` scheduling, the 1-second and 5-second periods and effect teardown: each timer firing is a method call. The countdown's `targetDate` is recomputed on every render of the page (src/App.jsx:802), which re-arms the effect. This is not modelled: a timer's deadline is fixed when it is created.
- The dynamic lookup in the lucide-react module: the library is a set of exported names. The `import` inside the component body is not valid module syntax and is not modelled.
- Icons.ToUpper: upper-cases ASCII letters only. JavaScript's `toUpperCase` also maps other letters, and some of them become two characters ('ß' becomes "SS"). So the model agrees with the source only for names whose first character is not such a letter.
- Icons.Normalize: the source looks names up on a plain object, so inherited property names such as `constructor` or `toString` find a non-string value, and that value falls back to HelpCircle. The model treats those names as ordinary names outside the table.
- Icons.NormalizeIdempotentOutsideTable: stated only for names outside the table. Each of the 22 table values is a fixpoint of normalisation too, but the proof over the literal table costs the solver too much and is not given.
- BookingForm.Reply: the decoded `success` and `message` are taken as a boolean and a string. JavaScript truthiness of other JSON values is not modelled.
- Countdown: epoch milliseconds are JavaScript doubles. They are exact integers in the range of real dates, so they are modelled as unbounded integers.
- Gallery.GalleryImage: leaves out the `span` layout class of the first image. PromoSlider.Promo keeps its colour class only as data.
- Gallery.SelectDismissSelect: a client of the class showing that select, dismiss, select leaves only the second image displayed. The source has no such function.
- Which icon the gallery, promotion and service cards draw: these names are data passed to SafeIcon, and only the burger icon is related to the normaliser (`MenuIconResolves`).

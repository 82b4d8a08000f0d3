# Portfolio page behaviour: typewriter, scroll-spy and language switching

A Dafny model of the client-side logic of a personal portfolio page
(`js/main.js`, `js/i18n.js`) that carries state from one event to the next:

- **Typewriter** (`typewriter.dfy`): the hero-section animation cycles through a
  list of role strings. Each tick types one more character of the current role or
  deletes one, switches to deleting (after a 2000 ms pause) when the word is
  complete, and moves on to the next role (after 500 ms) when it is empty. The
  `TypeWriter` class keeps the source's four animation fields (`roles`,
  `currentRoleIndex`, `currentText`, `isDeleting`); the three speeds are module
  constants, and the DOM `element` is not a field. `Tick` is `type()`, and it
  returns the text shown and the delay instead of writing the element and arming
  a timer. The pure `Step`/`Run` functions specify it;
  the lemmas prove the prefix invariant, the one-character-per-tick behaviour, the
  timing of a whole word cycle and the periodic loop over `["A", "BB"]`.
- **Scroll-spy** (`scrollspy.dfy`): two signals decide which navigation link is
  `active`. The intersection-observer callback picks the entry with the highest
  ratio, ties going to the smallest top. The scroll routine forces `home` within
  100 px of the top. Otherwise it picks the section with the highest weighted
  visible ratio above 10%, a top in the upper half of the window weighing 1.2.
  Marking is guarded by `currentActive`. A `ticking` flag lets at most one
  recomputation wait for the next animation frame.
- **Languages** (`i18n.dfy`, `jsstring.dfy`): the language is the stored
  preference, else the browser language matched by prefix, else Spanish. Dotted
  keys are looked up in the nested translation tree, and a key that is missing or
  empty falls back to itself. A failed load retries once with Spanish. The
  dropdown, the page title and the typewriter's roles follow the current language.

Browser services are inputs and outputs. Observer entries, section rectangles,
the viewport, `navigator.language` and the stored preference are parameters. A
fetch is a map from language code to parsed file, and a language missing from it
is a failed load. The timer delay, the text shown and the `languageChanged`
event are returned values. Ratios are exact reals.

Where the code and the usual description of these components differ, the model
follows the code:

- A role swap takes effect on the very next tick. The tick takes a prefix of the
  new role at once; the word in progress does not finish first (`Typewriter.Step`,
  `Typewriter.StepRecovers`).
- Text length moves by exactly one per tick only while the roles are non-empty
  and unchanged (`Typewriter.StepMovesOneCharacter`). After a swap, the first
  tick can jump.
- Home forcing happens only when a `#home` link exists. Without one, every link
  is cleared and `currentActive` keeps its old value (`ScrollSpy.Scrolled`).
- Near the top of the page the scroll routine rewrites the links on every call.
  It has no guard there, so a repeated call is idempotent in state but not free
  of writes (`ScrollSpy.ScrollTwice`).
- "Exactly one active link" is really "at most one". A chosen section without a
  link leaves none active (`ScrollSpy.Marked`).

## Model

| member | source | states |
|---|---|---|
| `Typewriter.Substring0` | js/main.js:186-188 | `substring(0, n)` gives the prefix of the role whose length is n clamped into [0, length] |
| `Typewriter.Step` | js/main.js:182-202 | one tick: the text becomes the role's prefix one longer (typing) or one shorter (deleting), clamped; a typing tick reaching the full role starts deleting with delay 2000; a deleting tick reaching "" resumes typing at index (i+1) mod n with delay 500; any other tick keeps mode and index with delay 100 (typing) or 50 (deleting); afterwards the index is in range and the text is a prefix of the selected role |
| `Typewriter.Run` | js/main.js:204 | repeated self-scheduling keeps the role list and keeps the index in range |
| `Typewriter.StepMovesOneCharacter` | js/main.js:183-202 | from a typical state (non-empty roles, prefix, typing before the end, deleting before empty) a tick stays typical and changes the length by exactly +1 (typing) or -1 (deleting) |
| `Typewriter.StepRecovers` | js/main.js:178-189 | with non-empty roles, one tick from any in-range state, for instance right after `updateRoles`, restores the prefix invariant |
| `Typewriter.RunStaysTypical` | js/main.js:182-204 | every state reached from a typical state is typical: the text is always a prefix of `roles[currentRoleIndex]` and the index stays in range |
| `Typewriter.InitialIsTypical` | js/main.js:169-172 | a fresh typewriter over non-empty roles starts in a typical state |
| `Typewriter.RunUnfold` | js/main.js:204 | k + 1 ticks are one tick followed by k more, delays added |
| `Typewriter.RunAdditive` | js/main.js:204 | running a ticks and then b more ends where a + b ticks end, and the delays add up |
| `Typewriter.RunChain` | js/main.js:204 | two runs back to back, the second starting where the first ended, are one run of the summed length and delay |
| `Typewriter.TypingPhase` | js/main.js:188-197 | typing from j characters to a role of length n takes k = n - j ticks, waits 100 ms between characters and 2000 ms at the end, and ends in deleting mode with the full role shown |
| `Typewriter.DeletingPhase` | js/main.js:186-201 | deleting k characters takes k ticks, waits 50 ms per character and 500 ms at the end, and ends typing "" at the next role |
| `Typewriter.WordCycle` | js/main.js:182-204 | a whole word of length n takes 2n ticks and 150n + 2350 ms and leads to the empty text of the next role |
| `Typewriter.TwoRoleLoop` | js/main.js:166-210 | for roles ["A", "BB"] six ticks (5150 ms) bring the typewriter back to its initial state |
| `Typewriter.TypeWriter.constructor` | js/main.js:167-176 | index 0, empty text, typing |
| `Typewriter.TypeWriter.UpdateRoles` | js/main.js:178-180 | the role list is replaced wholesale; index, text and mode are untouched |
| `Typewriter.TypeWriter.Tick` | js/main.js:182-205 | the new state and the returned delay are those of `Step`; the returned text is what the element shows |
| `JsString.Split` | js/i18n.js:86 | `split('.')` yields at least one piece, none containing the separator |
| `JsString.JoinSplit` | js/i18n.js:86 | joining the pieces of a split gives back the key |
| `JsString.SplitJoin` | js/i18n.js:86 | splitting the join of separator-free pieces gives back the pieces |
| `JsString.ToLower` | js/i18n.js:18 | lower-casing keeps the length, maps every ASCII capital to its lower-case letter (code + 32), leaves no capital behind and leaves other characters alone |
| `ScrollSpy.NavHeight` | js/main.js:58 | the measured navigation height if non-zero, else 80; always positive, and it is the height `VisibleRatio` covers |
| `ScrollSpy.FirstWithHref` | js/main.js:88 | the `href` selector finds the first link in document order with that href, or none exactly when no link has it |
| `ScrollSpy.Cleared` | js/main.js:84-86 | every link loses `active`, hrefs unchanged |
| `ScrollSpy.Marked` | js/main.js:84-91 | after clearing and marking, a link is active iff it is the first whose href is `#id`; at most one link is active; one is active iff such a link exists |
| `ScrollSpy.Activated` | js/main.js:81-92 | guarded marking: if `id` is already current the links are untouched, otherwise they are re-marked for `id`; `currentActive` becomes `id`; the settled invariant (at most one active link, pointing at the current section) is kept, and established by any write |
| `ScrollSpy.ActivateTwice` | js/main.js:81 | marking the same id twice: the second time changes nothing and writes nothing |
| `ScrollSpy.Intersecting` | js/main.js:68 | an entry is in the filtered list iff it is in the callback's list and intersects (order: `IntersectingAppend`) |
| `ScrollSpy.IntersectingAppend` | js/main.js:68 | the filter keeps the list's order: filtering a concatenation concatenates the filtered halves |
| `ScrollSpy.Best` | js/main.js:71-78 | the head of the stable sort: no entry has a higher ratio, or the same ratio and a smaller top; it sorts strictly before every earlier entry |
| `ScrollSpy.ObservedId` | js/main.js:67-79 | none iff no entry intersects; otherwise the id of an intersecting entry that no intersecting entry sorts before |
| `ScrollSpy.EarliestBest` | js/main.js:68-78 | picked from the unfiltered list: an intersecting entry no intersecting entry sorts before, and which sorts strictly before every earlier intersecting entry (of tied entries, the earliest) |
| `ScrollSpy.BestOfIntersecting` | js/main.js:68-77 | the head of the stably sorted filtered list is the entry `EarliestBest` picks |
| `ScrollSpy.ObservedIdIsEarliestBest` | js/main.js:67-79 | when some entry intersects, the callback settles on the id of the earliest entry among those that sort first |
| `ScrollSpy.Observed` | js/main.js:67-94 | no intersecting entry leaves the state unchanged; otherwise the chosen id is marked, guarded; the settled invariant is kept |
| `ScrollSpy.VisibleRatio` | js/main.js:119-127 | the visible fraction of a section's height, below the navigation bar plus 20 px and above the window bottom, lies in [0, 1] |
| `ScrollSpy.Score` | js/main.js:129-130 | the weighted ratio of a qualifying section exceeds 0.1 |
| `ScrollSpy.Pick` | js/main.js:115-136 | none iff no section shows more than 10%; otherwise a qualifying section whose weighted ratio is maximal and strictly greater than that of every earlier qualifying section |
| `ScrollSpy.MostVisibleSection` | js/main.js:115-136 | the loop with its running maximum returns the section `Pick` specifies |
| `ScrollSpy.Scrolled` | js/main.js:99-150 | below 100 px every link is cleared and only the first `#home` link, if any, is active, with `home` current if it exists and `currentActive` unchanged otherwise; further down, no qualifying section leaves everything unchanged and otherwise the picked section is marked, guarded; the settled invariant is kept |
| `ScrollSpy.ScrollTwice` | js/main.js:103-148 | a second run on the same input reaches the same state, and it writes links iff the scroll offset is below 100 px |
| `ScrollSpy.RunGate` | js/main.js:152-161 | over any stream of scroll events and frames, every frame request is answered by exactly one recomputation (one may be pending at the end); there are no more recomputations than frames and no more requests than frames + 1 |
| `ScrollSpy.ScrollsWhilePending` | js/main.js:154 | scroll events arriving while a frame is pending change nothing |
| `ScrollSpy.BurstCoalesces` | js/main.js:16-25 | n >= 1 scroll events before one frame give exactly one request and one recomputation |
| `ScrollSpy.FrameGate.constructor` | js/main.js:152 | the flag starts lowered with nothing pending |
| `ScrollSpy.FrameGate.OnScroll` | js/main.js:153-160 | a frame is requested iff none was pending; afterwards the flag is raised and at most one callback is pending; flag and request count are those of `RunGate` on one scroll event |
| `ScrollSpy.FrameGate.OnFrame` | js/main.js:155-158 | the frame callback lowers the flag and empties the queue; it is `RunGate`'s frame with a request pending: one recomputation, no request |
| `ScrollSpy.GateRunStepwise` | js/main.js:153-160 | a run of events is its first event followed by the rest from the flag that event leaves, counts added: the one-event steps of `FrameGate` compose into `RunGate` |
| `ScrollSpy.ScrollSpy.constructor` | js/main.js:56-65 | `currentActive` starts empty, links as given |
| `ScrollSpy.ScrollSpy.ClearActive` | js/main.js:84-86 | the `forEach` loop clears every link |
| `ScrollSpy.ScrollSpy.MarkFirst` | js/main.js:88-91 | only the first link with the href, if any, gains `active` |
| `ScrollSpy.ScrollSpy.Activate` | js/main.js:81-92 | the new state is `Activated`; links are written iff the id differs from `currentActive` |
| `ScrollSpy.ScrollSpy.ObserverCallback` | js/main.js:67-94 | the new state is `Observed`; links are written iff some entry intersects and its id is new |
| `ScrollSpy.ScrollSpy.UpdateActiveOnScroll` | js/main.js:99-150 | the new state is `Scrolled`; links are written iff near the top or a new section is picked |
| `ScrollSpy.RunScheduledUpdate` | js/main.js:155-158 | the frame callback recomputes as `Scrolled` and then lowers the flag |
| `I18n.FirstMatch` | js/i18n.js:38-42 | the value of the first table entry, in insertion order, whose key the language starts with; none iff no key matches |
| `I18n.Detect` | js/i18n.js:17-45 | the stored language when it is set and non-empty; otherwise always one of es, en, de, fr |
| `I18n.LangMapShape` | js/i18n.js:20-31 | every `langMap` key is at least two letters long and begins with the language it maps to, which is supported; the first four keys are es, en, de, fr |
| `I18n.DetectByTwoLetters` | js/i18n.js:20-44 | without a stored language the result is the first two lower-cased letters if they name a supported language, else `es`; the region entries never decide |
| `I18n.ScanLangMap` | js/i18n.js:38-42 | the early-return loop over the table returns the value of the first key the language starts with, or nothing: exactly `FirstMatch` |
| `I18n.I18n.DetectLanguage` | js/i18n.js:17-45 | the stored language if set, else the loop's match over `langMap`, else `es`: exactly `Detect` |
| `I18n.I18n.constructor` | js/i18n.js:4-8 | empty translations; the current language is the stored one or the detected one |
| `I18n.Lookup` | js/i18n.js:87-95 | a walk down a non-empty path that succeeds yields a truthy value |
| `I18n.LookupIsAt` | js/i18n.js:89-95 | the walk finds exactly what nested access finds, except that an empty string at the end counts as missing |
| `I18n.Translation` | js/i18n.js:85-98 | the result is truthy or the key itself, and anything other than the key was found by the walk |
| `I18n.TranslationFindsValue` | js/i18n.js:85-98 | any truthy value (a non-empty string or an object) stored under a nested path is the translation of its dotted key |
| `I18n.TranslationFallsBack` | js/i18n.js:89-94 | a missing key, or one whose value is "", translates to the key itself |
| `I18n.I18n.GetTranslation` | js/i18n.js:85-98 | the loop over the key's pieces computes `Translation` |
| `I18n.TranslationText` | js/i18n.js:156-158 | a non-empty key never translates to the empty string |
| `I18n.RoleTexts` | js/i18n.js:155-159 | exactly three roles, the translations of `hero.roles.role1..3` in order, none empty |
| `I18n.TranslatedRolesRecover` | js/i18n.js:153-160 | after the roles are swapped for translated ones, with the index below 3, one tick restores the typewriter's prefix invariant |
| `I18n.TitleFor` | js/i18n.js:142-150 | the title table covers exactly the supported languages: a supported language gets its own title, any other the Spanish one; no title is empty |
| `I18n.I18n.UpdatePageTitle` | js/i18n.js:142-150 | the title becomes `TitleFor(currentLang)`; nothing else changes |
| `I18n.Load` | js/i18n.js:58-83 | one or two fetches, the first for `lang`; an available `lang` is loaded; a failed `lang` other than `es` is followed by exactly one fetch of `es`, whose availability decides the outcome; a failed `es` is not retried; a loaded language was fetched last and is available; a failure means every fetched file was missing |
| `I18n.I18n.LoadTranslation` | js/i18n.js:58-83 | on success translations, current and stored language become the loaded ones and the dropdown is marked for it; on failure none of them changes; the fetches are those of `Load` |
| `I18n.I18n.UpdateDropdownActiveState` | js/i18n.js:177-187 | each option is active iff its `data-lang` is the current language; languages and other state unchanged |
| `I18n.I18n.UpdateTypewriterRoles` | js/i18n.js:153-161 | with a typewriter present its roles become the three translated roles, index, text and mode untouched; without one nothing changes |
| `I18n.I18n.UpdateUI` | js/i18n.js:134-136 | the title and the typewriter roles follow the current language |
| `I18n.I18n.SwitchLanguage` | js/i18n.js:190-197 | an unsupported language changes nothing and fetches nothing; a supported one is loaded as `Load` says (on success translations, current and stored language and the dropdown follow the loaded language; on failure they are unchanged), the title and the typewriter's roles refreshed, and a `languageChanged` event for `lang` returned; the typewriter's index, text and mode are never touched |
| `I18n.I18n.Init` | js/i18n.js:11-15 | the initial language is loaded as `Load` says: on success translations, current and stored language and the dropdown follow the loaded language, on failure they are unchanged; then the title and the typewriter's roles follow, its index, text and mode untouched |

## Left out

- DOM and browser wiring: `IntersectionObserver` set-up, thresholds and root
  margin, `getBoundingClientRect`, `classList`, `requestAnimationFrame` and
  `setTimeout` scheduling. Their results are inputs and the writes are outputs.
- CSS selector syntax: ids that need escaping in a `[href="#…"]` selector are
  treated like any other string.
- Floating point: ratios are exact reals, so IEEE rounding is not modelled. A
  section of height 0 is excluded, as the NaN it yields in the source is.
- `I18n.TranslationText`: when a role key names a nested object rather than a
  string, the source passes that object to `updateRoles`, and the next `type()`
  would fail on it. The model's roles are strings, so it passes the key.
- `I18n.Lookup`: JavaScript property access also finds characters and `length`
  of a string, and inherited `Object.prototype` members such as `constructor`.
  The model treats all of them as missing. `I18n.TitleFor` ignores such
  inherited keys in the same way.
- JSON values other than strings and objects (numbers, booleans, arrays, null)
  are not part of the translation tree.
- `JsString.ToLower`: only ASCII letters are lower-cased; the full Unicode case
  mapping of `toLowerCase` is not modelled.
- `fetch`, `response.json()`, `localStorage` and `async`/`await`. A load is the
  map lookup, and each awaited call runs to completion without other events in
  between.
- In `loadTranslation`, the writes to `document.documentElement.lang`, the
  `#currentLang` badge and the console: DOM and logging side effects.
- The text-node rewriting of `updateUI` (js/i18n.js:101-133) and the Bootstrap
  tooltips (js/i18n.js:164-174, js/main.js:236-241): DOM manipulation and
  foreign library calls.
- Navbar shrink, smooth scrolling, fade-in, parallax, e-mail copy, footer year,
  preloader, `debounce` and the resize handler (js/main.js:2-53, 212-373). These
  are one-shot DOM effects, floating-point styling, clipboard I/O or wall-clock
  timing. The navbar shrink's `ticking` gate (js/main.js:16-25) is the same
  pattern as the scroll-spy's, which `RunGate` and `FrameGate` model.
- `Typewriter.Step`, `Typewriter.Run`, `Typewriter.TypeWriter.Tick`: a tick
  whose index is out of range (an empty role list, or `updateRoles` swapping in a
  shorter list) makes the source throw a `TypeError` on `undefined.substring`
  (js/main.js:183-186). The model requires the index to be in range and does
  not model the exception, which stops the animation.
- `Typewriter.Substring0`: `substring` and `length` count UTF-16 code units,
  while a Dafny string is a sequence of Unicode scalar values. A role containing
  a character outside the Basic Multilingual Plane (an emoji) is typed half a
  character per tick in the source and a whole one in the model.
- `TypeWriter.start` and the element write: `start()` is the first `Tick`, and
  the text written to the element is `Tick`'s returned value.

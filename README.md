# Personal page: typing animation core

A model of the logic underneath a one-page personal site. The page flattens a
structured hero document into tagged lines and serialises them twice: into
the HTML markup that a typing animation reveals character by character, and
into an accessible plain-text rendering. While the text is revealed, an audio
unit is asked for a short tone per newly revealed non-whitespace character. The tone
is gated on readiness and on an enabled flag, and it is debounced by 40 ms of
audio-context time.

The model is generic over any document `{intro, lead, sections[{title, items}], meta}`,
not only the site's fixed content.

Modules:

- `Document` (document.dfy): the document, and the line count `1 + |lead| + Σ(2 + |items|) + 2`.
- `Compositor` (compositor.dfy): the tagged lines (`heroLines`), both as a recursive
  definition and as the loop that pushes them, with the lemmas about their order and count.
- `Markup` (markup.dfy): `buildTypedMarkup`. It comes with a token view (spans and line
  breaks) used to count the breaks and to locate each line's span.
- `PlainText` (plaintext.dfy): `sectionText` / `heroPlainText`, and their line-for-line
  correspondence with the compositor.
- `Strings` (strings.dfy): `join` and the split that inverts it.
- `Audio` (audio.dfy): the audio unit as a state with transition functions, and the
  `TypingAudio` class whose methods are proved against those functions.
- `Typing` (typing.dfy): the `HomeController` class, covering the start guard, the typing
  effect, the observer's beep-per-character loop and the effect's cleanup.

Modelling choices:

- Audio-context time is integer milliseconds, so the debounce threshold is 40 rather
  than 0.04 s.
- Creating the context and emitting a tone are counted by the fields `contextsCreated`
  and `beepsEmitted`. Whether the platform has an AudioContext constructor is the
  fixed boolean `hasConstructor`.
- The time of the context is a parameter of `PlayBeep` and `Observe`. All `playBeep` calls
  of one observer callback are given one time (see "## Left out").
  `Typing.ObserveAtMostOneBeep` shows the consequence: one callback emits at most one
  tone, however many characters it adds.
- The reduced-motion preference is a constructor input of `HomeController`.
- The text the animation reveals is whatever the caller passes to `Observe`.
- CSS module class names are opaque strings in a `ClassMap`.
- `!char.trim()` is the predicate `IsWhitespace`, which lists the ECMAScript
  WhiteSpace and LineTerminator code points.
- Two example runs are written out as methods in typing.dfy. `TeardownScenario` shows that a second start and any observation after teardown emit nothing. `ReducedMotionScenario` shows that with reduced motion an observation requests no beep.
- The source has no terminal "done" state for the animation. The observer stays
  attached until the effect's cleanup runs, and the model follows that.

## Model

| member | source | states |
|---|---|---|
| Compositor.HeroLines | app/page.tsx:16-30 | the document-order line sequence; its count, order and tagging are stated by Compositor.HeroLinesCount, HeroLinesHead, HeroLinesSection, HeroLinesSectionBlock, HeroLinesTail and HeroLinesWellTagged, and Compositor.ComposeLines is proved to build it |
| Markup.BuildTypedMarkup | app/page.tsx:40-53 | the map/join serialiser; its rendering, break count, per-line groups and append behaviour are stated by Markup.MarkupIsRendering, BreakCount, FragmentsSplit and MarkupAppend |
| Markup.TypedMarkup | app/page.tsx:55-56 | the document's markup; its properties are stated by Markup.HeroMarkup |
| PlainText.SectionBlock | app/content.ts:33-37 | one section's plain lines; their layout is stated by PlainText.PlainSection |
| PlainText.SectionText | app/content.ts:33-37 | the flat-mapped section lines; PlainText.PlainMatchesLines ties them to the compositor's section lines |
| PlainText.HeroPlainLines | app/content.ts:39-44 | the array that is joined; its count, tail, sections and correspondence are stated by PlainText.PlainLineCount, PlainTail, PlainSection and PlainMatchesLines |
| PlainText.HeroPlainText | app/content.ts:39-45 | the newline join; its newline count and split round trip are stated by PlainText.PlainTextNewlines |
| Audio.InitializeStep | app/page.tsx:91-116 | `initializeAudio` on the state; stated by Audio.InitializeReuses, InitializeUnsupported and ConsistencyPreserved, and implemented by Audio.TypingAudio.InitializeAudio |
| Audio.EnableStep | app/page.tsx:118-129 | `enableAudio` on the state; stated by Audio.EnableOutcome and EnableIdempotent, and implemented by Audio.TypingAudio.EnableAudio |
| Audio.ToggleStep | app/page.tsx:156-162 | `toggleAudio` on the state; stated by Audio.ToggleOutcome and ToggleThenEnable, and implemented by Audio.TypingAudio.ToggleAudio |
| Audio.PlayBeepStep | app/page.tsx:131-138 | `playBeep`'s gate and debounce on the state; stated by Audio.BeepGate, Debounce, EarlyBeepSuppressed, BeepsSpaced and NoEarlyBeeps, and implemented by Audio.TypingAudio.PlayBeep |
| Typing.IsWhitespace | app/page.tsx:214 | `!char.trim()` for one code point: the ECMAScript WhiteSpace and LineTerminator code points |
| Typing.AddedText | app/page.tsx:211-212 | the suffix past the previous length when the text grew; stated by Typing.AddedTextCount and RevealChain |
| Typing.ObserveChars | app/page.tsx:213-216 | the audio state after the loop's `playBeep` calls; stated by Typing.ObserveAtMostOneBeep, and the loop of Typing.HomeController.Observe is proved to reach it |
| Compositor.ComposeLines | app/page.tsx:16-30 | the lines built by the intro/lead head, the pushes in the nested section and item loops and the trailing pushes are exactly the document-order sequence `HeroLines(doc)` |
| Compositor.HeroLinesCount | app/page.tsx:16-30 | there are exactly 1 + \|lead\| + Σ over sections of (2 + \|items\|) + 2 lines |
| Compositor.HeroLinesHead | app/page.tsx:16-19 | line 0 is the intro line; the lead lines follow at 1..\|lead\| in order, tagged as lead lines |
| Compositor.HeroLinesSectionBlock | app/page.tsx:21-27 | the block of section k is a contiguous, complete run of lines starting where the sections before it end |
| Compositor.HeroLinesSection | app/page.tsx:21-27 | section k contributes a spacer, then its title, then one bullet `"- " + item` per item in item order, and section k+1 starts right after |
| Compositor.HeroLinesTail | app/page.tsx:29-30 | the line after the last section is a spacer and the final line is the meta line |
| Compositor.HeroLinesWellTagged | app/page.tsx:16-30 | a line has no text exactly when it is a spacer; every bullet's text begins with "- " |
| Markup.MarkupIsRendering | app/page.tsx:40-53 | the markup string is the rendering of the token sequence (one span per non-spacer line, one break between neighbouring lines); an empty line list gives "" |
| Markup.BreakCount | app/page.tsx:50-53 | the token sequence that renders to the markup holds exactly \|lines\| − 1 break tokens, one for each `<br/>` appended after a line but the last, and none for no lines |
| Markup.FragmentsSplit | app/page.tsx:44-53 | cutting the tokens at the breaks gives one group per line, in line order: a single span with `classes[type]` and the line's text, or nothing for a spacer |
| Markup.MarkupAppend | app/page.tsx:50-53 | appending a line appends `<br/>` and then its content, so a break follows every line except the last |
| Markup.HeroMarkup | app/page.tsx:55-56 | the document's markup is the rendering of a token sequence with LineCount(doc) − 1 break tokens, which split it into LineCount(doc) groups |
| Markup.SplitAtBreaksCount | app/page.tsx:50-53 | n break tokens cut a token sequence into n + 1 groups |
| PlainText.PlainMatchesLines | app/content.ts:33-45 | the plain text has as many lines as the compositor, and line i is compositor line i's text, or "" when that line is a spacer |
| PlainText.PlainLineCount | app/content.ts:39-45 | the joined array has 1 + \|lead\| + Σ(2 + \|items\|) + 2 entries, the compositor's line count |
| PlainText.PlainTail | app/content.ts:43-44 | the final line is `meta` and the line before it is empty |
| PlainText.PlainSection | app/content.ts:33-37 | section k's block begins with an empty line, then the title, then `"- " + item` per item |
| PlainText.PlainTextNewlines | app/content.ts:39-45 | when no field contains a newline, the text has exactly LineCount(doc) − 1 newlines and splitting it on newlines returns its lines |
| Strings.SplitJoin | app/content.ts:45 | splitting a `join` on a character that no part contains returns the parts |
| Strings.JoinCount | app/content.ts:45 | such a join contains the character exactly \|parts\| − 1 times |
| Audio.BeepGate | app/page.tsx:131-138 | a tone is emitted iff ready, enabled, a context exists and now − lastBeep ≥ 40; then lastBeep := now, otherwise the state is unchanged |
| Audio.Debounce | app/page.tsx:136-138 | after an emitting call, a second call less than 40 ms later emits nothing; with the gate open, two calls at least 40 ms apart both emit |
| Audio.EarlyBeepSuppressed | app/page.tsx:136-137 | while lastBeep is still its initial 0, a call at a time below 40 is suppressed and changes nothing |
| Audio.NoEarlyBeeps | app/page.tsx:80 | from any state whose lastBeep is still the initial 0 (ready, enabled or not), no series of beep requests emits a tone before time 40 |
| Audio.SetupKeepsLastBeep | app/page.tsx:91-162 | initialising, enabling and toggling leave lastBeep unchanged, so only an emitted tone moves it off its initial 0 |
| Audio.ApplyTone | app/page.tsx:91-162 | any single operation either emits nothing and keeps lastBeep, or emits one tone at least 40 ms after lastBeep and moves lastBeep to it |
| Audio.OpsSpaced | app/page.tsx:91-162 | over any mix of initialise, enable, toggle and beep calls, the first tone is at least 40 ms after lastBeep and each later tone at least 40 ms after the previous |
| Audio.NoEarlyTones | app/page.tsx:80 | from the initial state, over any mix of operations (so including an enabled, ready unit), no tone is ever emitted before time 40 |
| Audio.BeepsSpaced | app/page.tsx:131-138 | over any series of calls the emitted tones are counted by beepsEmitted, consecutive emissions are at least 40 ms apart, and lastBeep ends at the last emission |
| Audio.UnsupportedStaysSilent | app/page.tsx:103-107 | without a constructor, from a consistent state with no context, initialising, enabling and toggling all leave no context and not ready, and a beep request (line 132) changes nothing and emits nothing, so the unit stays silent for good |
| Audio.NoContextRunSilent | app/page.tsx:132 | with no context, any series of beep requests leaves the state unchanged and emits no tone |
| Audio.InitializeReuses | app/page.tsx:91-96 | with a context present, initialisation only sets ready and returns true; no second context is created |
| Audio.InitializeUnsupported | app/page.tsx:98-108 | with no constructor and no context, initialisation sets ready := false, supported := false and returns false |
| Audio.ConsistencyPreserved | app/page.tsx:91-162 | every operation keeps at most one context ever created, readiness only with a context, and no context when unsupported |
| Audio.EnableOutcome | app/page.tsx:118-129 | enabling returns the initialisation's outcome; it sets enabled (and ready) on success and leaves enabled alone on failure |
| Audio.EnableIdempotent | app/page.tsx:118-129 | enabling twice gives the same state and result as enabling once |
| Audio.ToggleOutcome | app/page.tsx:156-162 | toggling when not ready is exactly enabling; when ready it flips enabled and changes nothing else |
| Audio.ToggleThenEnable | app/page.tsx:156-162 | toggling before the unit is ready and then enabling (as start does) leaves the state of a single enable |
| Audio.TypingAudio.constructor | app/page.tsx:79-85 | starts with no context, not ready, enabled, supported, lastBeep 0 |
| Audio.TypingAudio.InitializeAudio | app/page.tsx:91-116 | the new state and result are those of InitializeStep; the unit stays consistent |
| Audio.TypingAudio.EnableAudio | app/page.tsx:118-129 | the new state and result are those of EnableStep |
| Audio.TypingAudio.PlayBeep | app/page.tsx:131-154 | the new state and the emitted flag are those of PlayBeepStep |
| Audio.TypingAudio.ToggleAudio | app/page.tsx:156-162 | the new state is that of ToggleStep |
| Typing.AddedTextCount | app/page.tsx:211-212 | when the new text extends the old, the slice past the old length holds exactly the newly revealed non-whitespace characters |
| Typing.RevealChain | app/page.tsx:207-220 | over a growing series of observed texts, the beep requests add up to the non-whitespace characters revealed, with none skipped and none repeated |
| Typing.ObserveAtMostOneBeep | app/page.tsx:213-216 | one callback's requests, all at one context time, emit one tone exactly when the gate is open and a non-whitespace character was added, and otherwise none |
| Typing.HomeController.constructor | app/page.tsx:176-178 | not started, not typing, empty last text, no requests |
| Typing.HomeController.Start | app/page.tsx:236-240 | the first start enables audio, marks the page started and begins typing unless reduced motion is preferred; any later start changes nothing |
| Typing.HomeController.StartTyping | app/page.tsx:188-196 | typing begins, with the last text reset, only when started, not reduced-motion and not already typing; otherwise nothing changes |
| Typing.HomeController.Observe | app/page.tsx:207-220 | an attached observer requests one beep per non-whitespace character of current[\|last\|..] when the text grew and none otherwise, then stores the text; a detached one does nothing |
| Typing.HomeController.Teardown | app/page.tsx:228-233 | detaches the observer, clears the started-typing guard and the last text, and leaves the start flag and audio alone |

## Left out

- The typing animation library (app/page.tsx:197-205, 230), with its per-character delay and start delay: only its effect, a growing text handed to `Observe`, is modelled.
- MutationObserver and DOM plumbing (`innerHTML`, `textContent`, `observe`/`disconnect`): these are the `observing` flag and the `Observe` parameter.
- React scheduling: effects are called directly from `Start`. The lag between the `audioEnabled` state and `audioEnabledRef` (app/page.tsx:87-89) is not modelled, so there is a single `enabled` flag.
- The JSX rendering, including the reduced-motion static render (app/page.tsx:246-265), the status labels and the link navigation.
- The reduced-motion media-query subscription (app/page.tsx:58-76): the preference is a fixed input.
- The oscillator, gain envelope and frequency of the tone (app/page.tsx:140-153): emitting a tone increments `beepsEmitted`.
- The `resume()` calls on the audio context (app/page.tsx:111, 124-126): they change no modelled state.
- The fixed content values and the social links (app/content.ts:1-31): the model works for any document.
- JavaScript string semantics: strings are sequences of code points. The UTF-16 `.length`/`.slice` versus code-point `for…of` mismatch is not reproduced.
- The build configuration (next.config.ts).
- Markup.BreakCount: counts the `<br/>` markers that `buildTypedMarkup` appends, as break tokens. Line texts and class names go into the markup unescaped (app/page.tsx:49), so a text that itself contains `<br/>` adds occurrences to the string that are not line breaks. Occurrences of `<br/>` in the string are not counted.
- Markup.HeroMarkup: the same as Markup.BreakCount; the count is of break tokens, not of `<br/>` occurrences in the string.
- An AudioContext constructor that throws (app/page.tsx:110) is not modelled: once `hasConstructor` holds, creating the context always succeeds. In the source such an exception would leave `initializeAudio` and `enableAudio` early and stop `handleStart` before it sets `hasStarted` (app/page.tsx:238-239).
- Typing.HomeController.Observe: all `playBeep` calls of one callback use the same context time. The platform's clock can advance between them by a render quantum (about 3 ms), which is well below the 40 ms window.

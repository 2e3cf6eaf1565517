# web-bucin: the generated page, modelled in Dafny

web-bucin is a small React application that fills in a form and generates one standalone
HTML page. The page asks a yes/no question: the "No" button dodges or shrinks in
importance, and the "Yes" button leads to a success scene. The logic lives in
`src/App.tsx`:

- the phrase list that the "No" button cycles through (line 30);
- `generateHTML` (lines 29-392), a template literal that interpolates the form's fields into
  the page (the one conditional is the background choice, lines 54-55 and 179-180);
- the script embedded in the page (lines 308-388): four variables (`phraseIndex`,
  `yesScale`, `isTransitioning`, `isFirstClick`) changed by a handler for each button and by
  a timer.

Three modules, one file each:

- `phrases.dfy` (module `Phrases`): `String.prototype.trim` over the whitespace set of
  section 22.1.3.32 of ECMA-262, `split('\n')` (section 22.1.3.23), `filter(Boolean)`, and
  their composition `ParsePhrases`, with its round trip.
- `template.dfy` (module `Template`): the form record, the semantics of a template literal
  (section 13.2.8 of ECMA-262: cooked strings and substitutions, alternating),
  `GenerateHtml`, and what the page contains. `GenerateHtml` is a function of the form
  and the encoder, so the same input always gives the same page.
- `interaction.dfy` (module `Interaction`): the script's state as a value (`PageState`),
  its handlers as pure step functions (`OnYes`, `OnNo`, `OnHideTimer`) with the runs they
  make (`Run`), and the class `Page`. `Page` holds the script's variables and the
  elements' observable state as fields; its methods (`YesClick` with its frame loop,
  `NoClick`, `HideTimerFires`) are proved to perform exactly the step functions and to keep
  the page's invariant `Consistent`.

Three behaviours of the code are easy to misread:

- The index is advanced before the phrase is shown (lines 310, 376-377). So the first
  handled "No" click shows `phrases[1 % n]`: with A, B and C the button shows B, C, A, B
  (`ExampleCycle`).
- An empty phrase list is not guarded. `(0 + 1) % 0` is NaN, `phrases[NaN]` is `undefined`,
  and the nullable `textContent` turns that into the empty string. So the first handled
  click blanks the button, and it stays blank (`EmptyListFirstClick`, `EmptyListBlanks`).
- The growth loop asks for another frame only while the scale is below 100 (line 347), so
  it ends at the first frame whose scale is at least 100 (`GrowScaleIsFirstCrossing`).

## Model

| member | source | states |
|---|---|---|
| Phrases.Trim | src/App.tsx:30 | `trim()` gives a string with no whitespace at either end; it is the infix of the input left once a whitespace-only prefix and suffix are cut off; it has no character the input lacks |
| Phrases.TrimFixedIffTrimmed | src/App.tsx:30 | trimming leaves a string unchanged if and only if it has no whitespace at either end |
| Phrases.TrimIdempotent | src/App.tsx:30 | trimming twice is trimming once |
| Phrases.TrimDropsTrailingWhitespace | src/App.tsx:30 | any whitespace after a trimmed non-empty phrase is cut off, including the '\r' of a CRLF line |
| Phrases.Split | src/App.tsx:30 | `split('\n')` gives at least one piece; no piece holds a '\n'; joining the pieces with '\n' gives the input back |
| Phrases.SplitCountsSeparators | src/App.tsx:30 | there is one more piece than there are '\n' characters in the input |
| Phrases.SplitFirst | src/App.tsx:30 | a '\n'-free piece followed by a separator is split off whole as the first piece |
| Phrases.SplitJoin | src/App.tsx:30 | splitting a '\n'-join of '\n'-free pieces gives exactly those pieces |
| Phrases.DropEmpty | src/App.tsx:30 | `filter(Boolean)` keeps no empty string and only strings of its input, and is no longer than its input |
| Phrases.DropEmptyCounts | src/App.tsx:30 | the filter drops every empty string and keeps every non-empty one as many times as it occurs |
| Phrases.DropEmptyKeepsOrder | src/App.tsx:30 | the filter keeps its input's order: its result is a subsequence of the input |
| Phrases.DropEmptyOfNonEmpty | src/App.tsx:30 | a list without empty strings passes the filter unchanged |
| Phrases.TrimAll | src/App.tsx:30 | `map(p => p.trim())`: one trimmed string per line, in the same order |
| Phrases.TrimAllOfTrimmed | src/App.tsx:30 | `map(p => p.trim())` leaves a list of trimmed strings unchanged |
| Phrases.NonBlankTrimmedArePhrases | src/App.tsx:30 | trimming '\n'-free lines and dropping the blank ones leaves only non-empty, trimmed, one-line phrases |
| Phrases.ParsePhrases | src/App.tsx:30 | every parsed phrase is non-empty, has no whitespace at either end and holds no '\n'; there are no more phrases than input lines |
| Phrases.ParsePhrasesKeepsLines | src/App.tsx:30 | the phrases are the trimmed lines in input order; every line that is not blank after trimming is kept, as often as it occurs |
| Phrases.ParseJoin | src/App.tsx:30 | round trip: writing well-formed phrases one per line and parsing the text gives exactly those phrases back |
| Phrases.ExamplePhrases | src/App.tsx:30 | "Nope\nNever" parses to ["Nope", "Never"] |
| Template.TemplateLiteral | src/App.tsx:31-391 | a template literal's value: the cooked strings with each substitution between two consecutive ones; `TemplateContains` and `ShapedPage` state where each substitution lands |
| Template.AnimationName | src/App.tsx:13 | the mode's name written into the script is 'random' exactly in random mode |
| Template.BackgroundValue | src/App.tsx:54 | the `background` value (also line 179): `transparent` for a non-empty field, the pink gradient for ""; stated by `BackgroundChoice` |
| Template.BackgroundImageValue | src/App.tsx:55 | the `background-image` value (also line 180): the nested literal `url('<field>')` for a non-empty field, `none` for ""; stated by `BackgroundChoice` |
| Template.BackgroundChoice | src/App.tsx:54-55 | an empty background field gives the pink gradient and `none`; any other value gives `transparent` and `url('<field>')` |
| Template.ShapedWhateverText | src/App.tsx:31-391 | the enclosing markup lands around every substitution whatever text the template holds between those markers, the text between the two mode tests of the no handler (lines 368-378) included |
| Template.GenerateHtml | src/App.tsx:29-392 | the template literal of the 15 cooked strings and the 14 substitutions, the form's fields verbatim; what the page then contains is stated by `TitleShownTwice`, `ButtonsShown`, `FieldsShown`, `PhrasesEmbedded`, `AnimationEmbedded` and `SceneBackgrounds` |
| Template.QuasisShaped | src/App.tsx:31-391 | around every substitution, the template's cooked strings end and start with the markup that encloses it, and the cooked text holds the fixed "No" button |
| Template.ShapedPage | src/App.tsx:31-391 | in any template of that shape, each substitution appears in the output enclosed by its markup |
| Template.TitleShownTwice | src/App.tsx:37 | the title appears verbatim as the document's `<title>` and as the main scene's `<h1 id="title">` (line 294) |
| Template.ButtonsShown | src/App.tsx:298-299 | the yes-button text is the yes button's content, verbatim; the no button is the fixed button labelled "No" |
| Template.FieldsShown | src/App.tsx:295-305 | the subtitle, both image URLs and the success text are interpolated verbatim into their elements |
| Template.PhrasesEmbedded | src/App.tsx:309 | the script declares `const phrases = ` followed by the encoding of the parsed phrase list |
| Template.ExamplePhrasesEmbedded | src/App.tsx:309 | with "Nope\nNever" the script embeds the encoding of ["Nope", "Never"] |
| Template.AnimationEmbedded | src/App.tsx:367-379 | the mode's name is written into both tests of the no-click handler |
| Template.SceneBackgrounds | src/App.tsx:53-55 | in both the body rule and the success scene's rule (lines 178-180), the last layout declaration (`align-items: center;`, `justify-content: center;`) is followed by the same `background` and `background-image` values, each ended by `;` |
| Template.ScenesShareBackground | src/App.tsx:178-180 | both scenes get the gradient and `none` when the field is empty, and otherwise `transparent` with the field, verbatim, as the image URL, each right after the rule's last layout declaration |
| Interaction.Advance | src/App.tsx:376 | the next index is a number exactly when the old one was and the list is non-empty, and it is then below the list's length |
| Interaction.Shown | src/App.tsx:377 | an index inside the list shows the phrase there; any other index, NaN included, shows "" |
| Interaction.GrowScale | src/App.tsx:343-357 | the growth loop ends at a scale of at least 100 and at least 1.5 times the start |
| Interaction.GrowScaleIsFirstCrossing | src/App.tsx:343-357 | the loop runs at least one frame; its final scale is the start times 1.5 per frame; every earlier frame's scale was below 100 |
| Interaction.OnYes | src/App.tsx:333-360 | ignored while transitioning; otherwise a transition starts and the scale reaches at least 100 with the timer set; the phrase state and the no button are left alone |
| Interaction.StartTransition | src/App.tsx:336-341 | sets the transition flag and the yes button's growing class; part of `OnYes`, whose contract states the effect |
| Interaction.GrowYes | src/App.tsx:343-350 | `grow()` run to completion: the scale becomes `GrowScale` of the old one and the button is centred at it; part of `OnYes` |
| Interaction.ShowSuccess | src/App.tsx:351-354 | shows the success scene, fades the main one and sets the timer; part of `OnYes` |
| Interaction.OnHideTimer | src/App.tsx:352-355 | the timer fires once and then is no longer pending; the script variables and the no button are untouched |
| Interaction.OnNo | src/App.tsx:362-388 | ignored while transitioning; otherwise the index advances and the new phrase is shown; the scale grows by 0.3 in grow mode only, and in random mode the yes button's scale, transform and font size stay as they were; grow mode never moves the no button; the first-click flag never comes back |
| Interaction.PlaceOnFirstClick | src/App.tsx:367-374 | on the first click in random mode the no button becomes absolute and centred and the flag is cleared; otherwise nothing changes; part of `OnNo` |
| Interaction.ShowNextPhrase | src/App.tsx:376-377 | advances the index, then shows the phrase at the new index; part of `OnNo` |
| Interaction.MoveOrGrow | src/App.tsx:379-387 | random mode moves the no button by the drawn offset; grow mode adds 0.3 to the yes scale and sets its transform and font size; part of `OnNo` |
| Interaction.Step | src/App.tsx:333-388 | no event decreases the yes button's scale |
| Interaction.Run | src/App.tsx:333-388 | no run of events decreases the yes button's scale |
| Interaction.InitialConsistent | src/App.tsx:310-313 | the page as loaded satisfies the invariant `Consistent` |
| Interaction.YesClickConsistent | src/App.tsx:333-360 | the yes click keeps the invariant |
| Interaction.NoClickConsistent | src/App.tsx:362-388 | the no click keeps the invariant |
| Interaction.HideTimerConsistent | src/App.tsx:352-355 | the timer keeps the invariant |
| Interaction.StepConsistent | src/App.tsx:333-388 | every event keeps the invariant |
| Interaction.RunConsistent | src/App.tsx:308-388 | every run of events keeps the invariant: success shown and main scene transparent exactly while transitioning, hidden exactly after the timer, scale at least 100 once transitioning, positioning switched exactly when the first-click flag is cleared |
| Interaction.YesClickOutcome | src/App.tsx:341-355 | a handled yes click grows the button to the first scale of at least 100, centred, shows the success scene, fades the main one and sets the timer; the timer then hides the main scene and the yes button |
| Interaction.TransitionStep | src/App.tsx:334-363 | once transitioning, a click changes nothing and only the timer acts |
| Interaction.TransitionIsFinal | src/App.tsx:334-363 | once transitioning, any run of clicks ends where it started, except for the one firing of the hide timer: no second growth and no second timer |
| Interaction.NoClickAdvances | src/App.tsx:376-377 | a handled no click moves the index from i to (i + 1) mod n and shows that phrase |
| Interaction.NoClicksCycle | src/App.tsx:376-377 | after k handled no clicks the index is (i + k) mod n and the button shows the phrase there |
| Interaction.ExampleCycle | src/App.tsx:310-377 | with A, B and C, successive no clicks show B, C, A, B |
| Interaction.EmptyListStep | src/App.tsx:376-377 | with an empty list, once the index is NaN and the text blank, every event keeps them so |
| Interaction.EmptyListBlanks | src/App.tsx:376-377 | with an empty list, a NaN index and a blank button stay so for any run |
| Interaction.EmptyListFirstClick | src/App.tsx:376-377 | with an empty list, a handled no click makes the index NaN and the button's text "" |
| Interaction.GrowModeNoClicks | src/App.tsx:382-387 | in grow mode, k handled no clicks add exactly 0.3k to the scale, and leave the transform `scale(s)` and the font size 1 + 0.2s rem |
| Interaction.GrowModeStep | src/App.tsx:367-374 | in grow mode no event changes the first-click flag or the no button's positioning |
| Interaction.GrowModeNeverPlaces | src/App.tsx:367-374 | in grow mode no run changes the first-click flag or the no button's positioning |
| Interaction.RandomModeNoClick | src/App.tsx:367-381 | in random mode a handled no click leaves the no button moving, centred and offset by the drawn amount, with the first-click flag cleared and the yes button's scale, transform and font size untouched |
| Interaction.RandomModeStep | src/App.tsx:367-374 | in random mode, once the flag is cleared, no event sets it again or changes the positioning |
| Interaction.RandomModePlacesOnce | src/App.tsx:367-374 | in random mode the switch to absolute positioning happens once: after it no run sets the flag again or changes the positioning |
| Interaction.Page.constructor | src/App.tsx:309-313 | the loaded page holds the parsed phrase list and the form's mode, in the initial state, which satisfies the invariant |
| Interaction.Page.YesClick | src/App.tsx:333-360 | the yes handler, with its frames as a loop, performs `OnYes` and keeps the invariant |
| Interaction.Page.BeginTransition | src/App.tsx:335-341 | the transition flag and the growing class are set; nothing else changes |
| Interaction.Page.GrowFrames | src/App.tsx:343-350 | the frame loop ends at `GrowScale` of the starting scale, with the centred transform at that scale; nothing else changes |
| Interaction.Page.ShowSuccessScene | src/App.tsx:350-352 | the success scene is shown, the main one faded and the timer set; nothing else changes |
| Interaction.Page.NoClick | src/App.tsx:362-388 | the no handler performs `OnNo` with the drawn offset and keeps the invariant |
| Interaction.Page.PlaceNoButton | src/App.tsx:367-374 | the first click in random mode switches the positioning and clears the flag; nothing else changes |
| Interaction.Page.AdvancePhrase | src/App.tsx:376-377 | the index advances and the button shows the phrase at it; nothing else changes |
| Interaction.Page.MoveNoOrGrowYes | src/App.tsx:379-387 | random mode sets the no button's offset; grow mode adds 0.3 to the scale and sets the transform and font size; nothing else changes |
| Interaction.Page.HideTimerFires | src/App.tsx:352-355 | the timer performs `OnHideTimer` and keeps the invariant |

## Left out

- Most of the template text is left out. The style sheet (lines 39-290) is reduced to the two rules that hold substitutions, `body` (lines 47-61) and `.success-container` (lines 169-187). Of each, the model keeps the opening line, the layout declaration just before the background (line 53, line 178) and the two background declarations. The script keeps only its declarations and the two tests that hold substitutions. So `GenerateHtml` has the real page's substitutions, in order, each with the real text on both sides of it, but not the page's full text. The fragments the lemmas prove occur in the real page.
- `JSON.stringify` (line 309) is a parameter `stringify` of `GenerateHtml`, an encoder the model does not define. `Page.constructor` takes the list the page decodes to be the parsed list, so it treats the encoding as lossless.
- Interaction.Page.constructor: models only pages whose phrases contain no `</script`. `JSON.stringify` escapes neither `<` nor `/`, so such a phrase closes the script element of line 309 early; the script then no longer parses and neither click handler is installed. The model assumes the script runs.
- `getRandomPosition` (lines 315-331) draws from `Math.random` and uses `cos` and `sin`. It becomes the offset `(dx, dy)` passed to `NoClick` and `OnNo`.
- `requestAnimationFrame` (line 348): the frames of `grow()` run as a loop to completion inside `YesClick`. Clicks that arrive between frames are ignored by the transition flag in any case.
- `setTimeout(…, 500)` (lines 352-355) becomes the separate event `HideTimer`. Time itself is not modelled.
- IEEE-754 doubles: `yesScale` is an exact real, so `* 1.5`, `+ 0.3` and `1 + yesScale * 0.2` have no rounding.
- Interaction.GrowScale: requires a starting scale of at least 1, which every reachable state has (`Consistent`). In the source the loop would also stop from a smaller positive scale.
- The CSS effect of the classes and inline styles (`moving`, `visible`, `hidden`, `growing`, opacity) is recorded as flags; layout and rendering are not modelled.
- The unused bounding rectangle read at lines 369-370 is left out.
- The React component, its form state and JSX (lines 16-27 and 411-591), the clipboard copy and file download (lines 394-409), and the preview iframe are user interface and browser I/O.
- Strings are sequences of `char`. Escaping is not needed: the source interpolates every field verbatim, and the model does the same.

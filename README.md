# Deal-analysis dashboard: the deal model

A Dafny model of the state machine inside the real-estate dashboard component
(`RealEstateDashboard` in `realtor.tsx`). The component compares two ways of
structuring a purchase against a fixed mortgage baseline. It has four pieces of
state:

- the parameter record `values`, with seven numeric fields;
- the active scenario, the one last activated;
- the analysis-notes log;
- the pending text of the note input.

Three event handlers change this state:

- a slider moves one field;
- activating a scenario sets the record to that scenario's preset;
- adding a note appends the pending text when it is not blank.

Three figures are computed from the state on every render: initial equity,
monthly change and future equity share.

Modules, one per concept of the component:

- `Wrappers`: `Option`, for a field the JavaScript object may lack.
- `DealParams`: the record, its keys, the one-field update `{...values, [key]: v}`,
  the slider bounds as an invariant (`InBounds`), and the scenario catalogue
  with its presets.
- `Derivations`: the baseline facts and the three figures, with their sign,
  bound and whole-number properties and the values the three figures take on
  any record holding each preset.
- `Notes`: JavaScript's `trim`, written as the two index scans it performs, the
  `newComment.trim()` guard, and the note entry.
- `Dashboard`: the class `DealDashboard` holding the state, one method per event
  handler, and client methods that replay the dashboard's documented
  interactions through that class.

Behaviours of the code to note:

- `addComment` stores the pending text as typed, untrimmed (realtor.tsx:52).
  Trimming is only the blank check (realtor.tsx:51).
- Activating a scenario crashes the dashboard. The handler replaces the whole
  record with a preset object that has only five fields (realtor.tsx:59), so
  `inspectionCost` and `showingCost` become `undefined`. The next render formats
  every slider's value (realtor.tsx:228), and the two cost sliders' `format`
  calls `toLocaleString` on that `undefined` (realtor.tsx:182, 193). This throws
  a TypeError. The component has no error boundary, so React unmounts it. The
  slider block comes before the results block, so the figures are never shown
  again, and no later slider or note event reaches a handler. The model records
  this under "## Findings". `DealParams.Activated` is the handler as written,
  and `DealParams.ActivationAsWrittenBreaksRender` proves that its record
  cannot be rendered. The dashboard class uses the corrected activation
  `DealParams.ActivatedOver`, which lays the preset's five values over the
  record and keeps the two costs. Every client method in `Dashboard` that
  activates a scenario therefore describes the corrected dashboard.
- Nothing resets the active scenario. After a slider moves, it can name a
  scenario whose preset the record no longer holds (`StaleSelectionAfterSlide`).

## Model

| member | source | states |
|---|---|---|
| `DealParams.With` | realtor.tsx:164 | `{...values, [key]: v}` holds `v` under `key` and keeps every other field as it was |
| `DealParams.WithIsTheOnlyOneFieldUpdate` | realtor.tsx:233 | any record that differs from the old one only at `key`, where it holds `v`, is exactly the slider's update |
| `DealParams.DefaultsInBounds` | realtor.tsx:12-20 | the starting record lies within every slider's range and step grid |
| `DealParams.HasSlider` | realtor.tsx:128-240 | the six slider keys: every field but `marketValue` has a slider |
| `DealParams.SliderAccepts` | realtor.tsx:128-240 | the values each slider can deliver: its `min` to `max` on the grid of its `step` |
| `DealParams.WithKeepsInBounds` | realtor.tsx:128-240 | moving a slider to a value that slider can deliver keeps the record within bounds |
| `DealParams.WithKeepsRenderable` | realtor.tsx:164 | a slider update never removes a field, so a record the render can format stays so |
| `DealParams.Renderable` | realtor.tsx:175-229 | the render can format the record exactly when both cost fields are present, because the cost labels call `toLocaleString` on them |
| `DealParams.Catalog` | realtor.tsx:22-45 | the two catalogue entries: title, description and preset values |
| `DealParams.PresetOf` | realtor.tsx:26-43 | each scenario's five preset values |
| `DealParams.MatchesPreset` | realtor.tsx:26-43 | the record holds all five values of a scenario's preset |
| `DealParams.Activated` | realtor.tsx:57-60 | as written, the record after activation holds the preset's five values and lacks `inspectionCost` and `showingCost` |
| `DealParams.ActivatedIsPreset` | realtor.tsx:22-45 | key by key, the record after activation as written is the catalogue's preset object, with nothing under the two cost keys |
| `DealParams.ActivationAsWrittenBreaksRender` | realtor.tsx:59 | the starting record can be rendered; the record after either activation as written cannot |
| `DealParams.ActivatedOver` | realtor.tsx:57-60 | corrected activation: the record holds the preset's five values and keeps both costs of the old record |
| `DealParams.ActivatedOverIsTheOverlay` | realtor.tsx:59 | the corrected activation's record is the only one holding the preset with the old costs |
| `DealParams.ActivatedOverKeepsInvariants` | realtor.tsx:26-43 | corrected activation keeps a record within the slider bounds and renderable |
| `DealParams.ActivatedOverIdempotent` | realtor.tsx:57-60 | activating the same scenario twice gives the same record as once |
| `DealParams.ActivatedOverErasesPresetEdit` | realtor.tsx:59 | a slider edit of one of the five preset fields leaves no trace after the next activation |
| `Derivations.InitialEquity` | realtor.tsx:249 | purchase price minus the current loan balance |
| `Derivations.MonthlyChange` | realtor.tsx:256 | initial rent minus the current payment |
| `Derivations.IsIncrease` | realtor.tsx:257-258 | the increase styling: rent strictly above the payment |
| `Derivations.FutureEquityShare` | realtor.tsx:263 | appreciation times the split percentage over 100, in exact arithmetic |
| `Derivations.InitialEquitySign` | realtor.tsx:249 | initial equity is price minus loan balance, unclamped: negative exactly when the price is below the balance |
| `Derivations.IncreaseIffPositiveChange` | realtor.tsx:256-258 | the increase styling applies exactly when rent exceeds the payment (strictly); equal values give a zero change and the other styling |
| `Derivations.FutureShareZeroSplit` | realtor.tsx:263 | with a zero split the future share is 0 |
| `Derivations.FutureShareBounded` | realtor.tsx:263 | with a split in [0, 100] the share has the sign of the appreciation and at most its magnitude |
| `Derivations.FutureShareWhole` | realtor.tsx:263 | for every record within bounds the share is a whole number of dollars: the integer quotient `(marketValue - purchasePrice) * split / 100` with remainder 0 |
| `Derivations.MetricsInBounds` | realtor.tsx:246-263 | within bounds, initial equity lies in [-3000, 257000] and the monthly change in [-500, 2100] in whole hundreds |
| `Derivations.EquitySharePresetMetrics` | realtor.tsx:37-43 | any record holding the equityShare preset: equity -3000, change -400 with no increase styling, share 90000 |
| `Derivations.SubjectToPresetMetrics` | realtor.tsx:26-32 | any record holding the subjectTo preset: equity 177000, change 0 with no increase styling, share 0 |
| `Notes.SkipWhitespace` | realtor.tsx:51 | the scan for the start of the content stops at the first character that is not whitespace, or at the end |
| `Notes.SkipWhitespaceBack` | realtor.tsx:51 | the backward scan stops just past the last character that is not whitespace, or at the lower bound |
| `Notes.SkipWhitespacePassesWhitespace` | realtor.tsx:51 | everything the forward scan passes over is whitespace |
| `Notes.SkipWhitespaceBackPassesWhitespace` | realtor.tsx:51 | everything the backward scan passes over is whitespace |
| `Notes.Trim` | realtor.tsx:51 | the trimmed text neither starts nor ends with whitespace and is no longer than the text |
| `Notes.TrimDropsOnlyWhitespace` | realtor.tsx:51 | everything `trim` drops, before and after the slice it keeps, is whitespace |
| `Notes.TrimEmptyIff` | realtor.tsx:51 | `trim` gives the empty string exactly when the text is all whitespace |
| `Notes.HasContent` | realtor.tsx:51 | the truthiness of `newComment.trim()`: the trimmed text is not empty |
| `Notes.HasContentIff` | realtor.tsx:51 | the guard passes exactly when the text holds a character that is not whitespace |
| `Dashboard.DealDashboard.constructor` | realtor.tsx:8-48 | first render: default record, no scenario, empty log, empty input, record within bounds and renderable |
| `Dashboard.DealDashboard.EditNewComment` | realtor.tsx:290 | the input's change handler replaces the pending text and nothing else |
| `Dashboard.DealDashboard.AddComment` | realtor.tsx:50-55 | with content: appends exactly one entry (the untrimmed text, the timestamp) at the end, the old log a prefix, and clears the input; blank: changes nothing, the input is not cleared; record and active scenario untouched |
| `Dashboard.DealDashboard.ActivateScenario` | realtor.tsx:57-60 | corrected handler: the active scenario becomes `id` and the record becomes the preset laid over the old record; notes untouched; within bounds and renderable when it was before |
| `Dashboard.DealDashboard.SetValue` | realtor.tsx:233 | the record becomes the one-field update with no range check; active scenario and notes untouched; within bounds and renderable when it was before and the slider delivers a value it can deliver |
| `Dashboard.ShareOnScreen` | realtor.tsx:263 | on any dashboard the handlers can reach, the future share is the whole-dollar integer quotient of appreciation times split over 100 |
| `Dashboard.EquityShareFigures` | realtor.tsx:246-267 | with the corrected activation, a fresh dashboard with equityShare activated has figures equity -3000, change -400 (no increase styling) and share 90000 |
| `Dashboard.ActivationIgnoresPriorEdits` | realtor.tsx:57-60 | with the corrected activation, after any slider move the record holds the preset and activating twice equals activating once; a move of a preset field is erased entirely |
| `Dashboard.CostsSurviveActivation` | realtor.tsx:178-194 | with the corrected activation, a cost set before activating survives it, and the record stays renderable |
| `Dashboard.StaleSelectionAfterSlide` | realtor.tsx:164 | with the corrected activation, a slider move after activating subjectTo keeps subjectTo active while the record no longer holds its preset |
| `Dashboard.BlankNoteRefused` | realtor.tsx:50-55 | a whitespace-only note leaves the log empty and stays in the input |
| `Dashboard.TwoNotesInOrder` | realtor.tsx:50-55 | two notes with content are logged in order, as typed, and the input ends empty |

## Findings

| source | as written | input that shows it | evidently intended | confidence | as-written member | corrected member |
|---|---|---|---|---|---|---|
| realtor.tsx:59 | activation replaces the record with the five-field preset, so both cost fields become `undefined`; the next render (realtor.tsx:228) calls `toLocaleString` on them (realtor.tsx:182, 193) and throws, which unmounts the dashboard | click either "Activate" button, e.g. `activateScenario('subjectTo')` | the preset's five values laid over the record, with both costs kept, so the render and every later event still work | not executed; high (the preset literals lack both fields and the format calls are unguarded) | `DealParams.ActivationAsWrittenBreaksRender` | `DealParams.ActivatedOver` |

## Left out

- Rendering, layout, styling, icons, the property image and the fixed "$547k - $620k" label: display only, no logic.
- The `Slider` and `Input` widgets: reduced to delivering a value. The slider bounds are the invariant `InBounds`; `SetValue` itself does no range check, as in the source.
- `currentRate`: it is displayed and feeds no computation.
- Number formatting (`toLocaleString`, `toFixed(2)`): locale-dependent string output.
- The timestamp `new Date().toLocaleString()`: it reads the clock and formats by locale, so `AddComment` takes it as a parameter.
- `FutureEquityShare`: computed in exact real arithmetic, not IEEE doubles. `FutureShareWhole` shows the exact value is a whole number for every record within bounds; the rounding of the double product `(mv - pp) * (split / 100)` is not modelled.
- `IsWhitespace`: lists ECMAScript's WhiteSpace and LineTerminator code points, with the space separators of Unicode 15; later Unicode additions are not covered.
- An unknown scenario key: the model's `ScenarioId` has only the two catalogue entries, and the buttons are built from that catalogue.
- React's scheduling and closures: each handler is one atomic, sequential update.
- The crash itself: the TypeError and the unmounting are not modelled as state. `DealParams.ActivationAsWrittenBreaksRender` states the unrenderable record, and the dashboard class runs the corrected activation.

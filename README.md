# Editable table cell: dispatcher, value controller, debounced input

A Dafny model of the decision and state-machine logic inside one cell of
FireCMS's editable collection table:

- **Field dispatcher** (`dispatcher.dfy`, module `Dispatcher`). Given a property
  descriptor and the cell's UI state (`selected`, `readOnly`), it picks the
  widget the cell renders. The choices are the storage upload, a single
  select, the number input, the text input, the switch, the date field, a
  reference field, a multi select, a multi reference field, or the
  read-only preview. It also sets the four cell flags `allowScroll`,
  `showExpandIcon`, `removePadding` and `fullHeight`. An array property
  with neither `of` nor `oneOf` gets the configuration error instead. The
  same module has `isStorageProperty` and the derived disabled / tooltip /
  popup settings. `SelectWidget` follows the source's if/else chain.
  `FirstMatch` over `Priority` is the same dispatch written as a
  priority-ordered decision table, and `CascadeIsDecisionTable` proves the
  two agree on every input.
- **Cell value controller** (`controller.dfy`, module `Controller`). The
  `internalValue`, `error` and `saved` state of a cell. The events are a new
  `value` prop, a widget's `updateValue`, a validation that resolves or
  rejects, and the `setSaved`/`setError` callbacks handed to `onValueChange`.
  Pure step functions on `CellState` specify each event, and the class
  `CellController` implements them on fields updated in place.
  Validations are outstanding promises, each with the working value it
  captured. They may settle in any order, and a stale resolution still
  commits, exactly as in the source.
- **Debounced text input** (`table_input.dfy`, module `DebouncedInput`). The
  local text, the pending 300-unit timer and the `focusedState` latch. Time
  is explicit (`now`, `AdvanceStep`). Step functions specify each event, and
  the class `TableInput` implements them.
- `values.dfy` (module `Values`) models cell values. Objects carry an
  allocation identity, so Dafny's `==` on `Value` is JavaScript's `===`
  wherever one identity always stands for the same contents (values that
  are not mutated in place; the model assumes this and does not check it).
  `DeepEqual` is the deep equality of `react-fast-compare`.
  `wrappers.dfy` holds `Option`.

Modelling choices worth knowing:

- The `value` effect (`PropertyTableCell.tsx:114`) overwrites the working
  value when the new `value` is not *identical* (`!==`) to it. It does not
  use deep equality.
- The debounced input's timer callback closes over the `value` prop of the
  render that scheduled it (the effect depends only on `internalValue`). The
  commit test at expiry compares against that captured `value`, and
  `Timer` records it.
- The focus effect depends on a `ref` created afresh on every render, so it
  runs after every render. `FocusStepIdempotent` shows that rerunning it
  changes nothing once the latch has settled.
- A sync of the external value restarts the debounce timer too, because it
  changes `internalValue`. That timer then commits nothing, since the local
  text equals its captured `value`.

## Model

| member | source | states |
|---|---|---|
| Values.DeepEqual | lib/src/core/components/CollectionTable/internal/PropertyTableCell.tsx:123 | deep equality relates only values of the same kind: objects to objects, arrays to arrays of the same length, dates to dates with the same time |
| Values.DeepEqualOnPrimitives | lib/src/core/components/CollectionTable/internal/PropertyTableCell.tsx:123 | on non-objects, `equal` and `===` agree |
| Values.DeepEqualReflexive | lib/src/core/components/CollectionTable/internal/PropertyTableCell.tsx:123 | `equal(v, v)` holds for every value, nested arrays included |
| Values.StrictImpliesDeep | lib/src/core/components/CollectionTable/internal/PropertyTableCell.tsx:114-123 | identical values are deep-equal |
| Values.DeepDoesNotImplyStrict | lib/src/core/components/CollectionTable/internal/PropertyTableCell.tsx:114-123 | two distinct arrays with equal contents are deep-equal but not identical, so the two effects' tests differ |
| Dispatcher.IsStorageProperty | lib/src/core/components/CollectionTable/internal/PropertyTableCell.tsx:57-69 | true exactly for a string with `storage` or an array whose single `of` is such a string; false for a list `of` and for every other type |
| Dispatcher.ArrayConfigMessage | lib/src/core/components/CollectionTable/internal/PropertyTableCell.tsx:280 | the error message ends with the field's name |
| Dispatcher.SelectWidget | lib/src/core/components/CollectionTable/internal/PropertyTableCell.tsx:161-337 | a non-editable cell (read-only, custom `Field`, or custom `Preview` while unselected) gets the preview; otherwise storage wins with all three of `showExpandIcon`, `fullHeight`, `removePadding`; the error happens exactly for an editable array missing both `of` and `oneOf` and names the field; every preview has `allowScroll` false, `showExpandIcon = selected && !disabled && !readOnly` and no padding or height flags; only the upload removes padding |
| Dispatcher.CascadeIsDecisionTable | lib/src/core/components/CollectionTable/internal/PropertyTableCell.tsx:167-337 | for every descriptor and UI state, the if/else chain equals the first firing rule of the priority table `Priority` (preview when none fires) |
| Dispatcher.SelectedScalarRules | lib/src/core/components/CollectionTable/internal/PropertyTableCell.tsx:186-242 | when selected, a number or string with `enumValues` gets the single select with `fullHeight` and no scroll; a plain number gets the number input and a plain non-markdown string the text input (with its `multiline`), both with `allowScroll`; a markdown string gets the preview |
| Dispatcher.UnselectedScalarsPreview | lib/src/core/components/CollectionTable/internal/PropertyTableCell.tsx:186-242 | an unselected, non-storage number or string gets the preview |
| Dispatcher.SelectionIndependentRules | lib/src/core/components/CollectionTable/internal/PropertyTableCell.tsx:168-317 | storage, boolean, date, reference with a string path, and array of such a reference get the same editor whether or not the cell is selected |
| Dispatcher.ArrayOfOneRules | lib/src/core/components/CollectionTable/internal/PropertyTableCell.tsx:282-318 | a single string/number `of` with `enumValues` gets the multi select, with `allowScroll` and `fullHeight`, only when selected; a reference `of` with a string path gets the multi reference field; every other `of` (a reference without a string path, a non-enumerated or unselected string or number, a boolean, date, map, geopoint or array) gets the preview |
| Dispatcher.ArrayOfListOrOneOfPreview | lib/src/core/components/CollectionTable/internal/PropertyTableCell.tsx:276-320 | a list `of`, or `oneOf` without `of`, raises no error and gets the preview |
| Dispatcher.CellChrome | lib/src/core/components/CollectionTable/internal/PropertyTableCell.tsx:345-355 | the popup is offered exactly when the descriptor is not disabled; the cell is shown disabled exactly when the descriptor is disabled or the table is read-only, so a read-only but enabled cell is shown disabled yet keeps its popup; the tooltip is the config object's `disabledMessage` when there is one and "Disabled" otherwise |
| Controller.Normalize | lib/src/core/components/CollectionTable/internal/PropertyTableCell.tsx:147-159 | `undefined` becomes `null`; every other value is kept unchanged |
| Controller.ValueEffect | lib/src/core/components/CollectionTable/internal/PropertyTableCell.tsx:112-119 | after the `value` effect the working value is `value`; it issues no validation, commits nothing and keeps `saved` and `error` |
| Controller.InternalValueEffect | lib/src/core/components/CollectionTable/internal/PropertyTableCell.tsx:121-145 | a working value deep-equal to `value` changes nothing; otherwise `saved` becomes false and exactly one validation of the working value is issued; the effect never commits or changes the error |
| Controller.Mount | lib/src/core/components/CollectionTable/internal/PropertyTableCell.tsx:91-145 | mounting takes `value` as working value and issues no validation and no commit |
| Controller.ValuePropStep | lib/src/core/components/CollectionTable/internal/PropertyTableCell.tsx:112-119 | a new `value` prop that is not the previous one overwrites the working value; the same prop changes nothing; adopting it never validates, commits, or touches `saved`/`error` |
| Controller.UpdateValueStep | lib/src/core/components/CollectionTable/internal/PropertyTableCell.tsx:121-159 | the normalised value becomes the working value; one deep-equal to `value` issues no validation and leaves `saved`; a new divergent one sets `saved` false and issues a validation of exactly that value |
| Controller.ResolvedStep | lib/src/core/components/CollectionTable/internal/PropertyTableCell.tsx:127-137 | a resolution clears `error` and, when `onValueChange` is given, commits the captured value with `name`; the validation leaves the outstanding list |
| Controller.RejectedStep | lib/src/core/components/CollectionTable/internal/PropertyTableCell.tsx:138-141 | a rejection sets `error` and commits nothing |
| Controller.CommitsNeedResolutions | lib/src/core/components/CollectionTable/internal/PropertyTableCell.tsx:121-145 | over any run of events, earlier commits are kept and at most one commit is added per resolution |
| Controller.InSyncUpdatesNeverCommit | lib/src/core/components/CollectionTable/internal/PropertyTableCell.tsx:121-159 | any run of widget updates each deep-equal to `value` validates nothing, commits nothing and keeps `saved` and `error` |
| Controller.StaleResolutionCommitsLast | lib/src/core/components/CollectionTable/internal/PropertyTableCell.tsx:125-141 | edits `b` then `c`, with `c` resolving first: the last commit carries the stale `b` while the working value is `c` |
| Controller.CellController.constructor | lib/src/core/components/CollectionTable/internal/PropertyTableCell.tsx:91-100 | the fields start as `Mount(value)` |
| Controller.CellController.InternalValueChanged | lib/src/core/components/CollectionTable/internal/PropertyTableCell.tsx:121-145 | the working-value effect, as `InternalValueEffect` |
| Controller.CellController.ValuePropChanged | lib/src/core/components/CollectionTable/internal/PropertyTableCell.tsx:112-119 | the new state is `ValuePropStep` of the old |
| Controller.CellController.UpdateValue | lib/src/core/components/CollectionTable/internal/PropertyTableCell.tsx:147-159 | the new state is `UpdateValueStep` of the old |
| Controller.CellController.ValidationResolved | lib/src/core/components/CollectionTable/internal/PropertyTableCell.tsx:127-137 | the new state is `ResolvedStep` of the old |
| Controller.CellController.ValidationRejected | lib/src/core/components/CollectionTable/internal/PropertyTableCell.tsx:138-141 | the new state is `RejectedStep` of the old |
| Controller.CellController.SetSaved | lib/src/core/components/CollectionTable/internal/PropertyTableCell.tsx:130-135 | the `setSaved` callback sets `saved` only |
| Controller.CellController.SetError | lib/src/core/components/CollectionTable/internal/PropertyTableCell.tsx:130-135 | the `setError` callback sets `error` only |
| DebouncedInput.Display | src/core/components/CollectionTable/internal/fields/TableInput.tsx:87 | shows the local text, and `""` when it is null or undefined; the shown text is empty exactly when the local value is falsy |
| DebouncedInput.ShouldCommit | src/core/components/CollectionTable/internal/fields/TableInput.tsx:42-48 | with an empty `value`, a commit happens exactly for a non-empty local text; otherwise exactly when the local text differs from `value` |
| DebouncedInput.AcceptsChange | src/core/components/CollectionTable/internal/fields/TableInput.tsx:88-92 | multi-line inputs accept every text; single-line ones reject exactly texts ending in a newline |
| DebouncedInput.FocusStep | src/core/components/CollectionTable/internal/fields/TableInput.tsx:70-79 | the input is focused, caret at the given end position, exactly on an unfocused-to-focused transition; afterwards the latch equals `focused` |
| DebouncedInput.FocusStepIdempotent | src/core/components/CollectionTable/internal/fields/TableInput.tsx:69-79 | rerunning the focus effect on a later render does nothing |
| DebouncedInput.TimerEffect | src/core/components/CollectionTable/internal/fields/TableInput.tsx:40-57 | the timer effect leaves one timer, due `DebounceDelay` from now, that captured the current `value` and local text; nothing else changes |
| DebouncedInput.FocusEffect | src/core/components/CollectionTable/internal/fields/TableInput.tsx:69-79 | the focus effect settles the latch to `focused` and adds one focus action, caret at the end of the shown text, exactly on a rising edge; nothing else changes |
| DebouncedInput.AfterRender | src/core/components/CollectionTable/internal/fields/TableInput.tsx:40-79 | one render's effects: an unfocused input whose props changed to a `value` other than the local text adopts it and restarts the timer for it; otherwise the local text stays and the timer is restarted only when the local text changed; commits, `value`, `focused` and time are untouched; at most one focus action; the invariant holds after it when the local text changed or the old timer already met its part of the invariant |
| DebouncedInput.Mount | src/core/components/CollectionTable/internal/fields/TableInput.tsx:36-79 | the state holds the given `value`, `focused` and time, the local text starts as `value`, a timer is scheduled for it, and a focused input is focused once with the caret at the end |
| DebouncedInput.ChangeStep | src/core/components/CollectionTable/internal/fields/TableInput.tsx:40-92 | a rejected or unchanged text leaves the state unchanged; an accepted new text becomes the local text and replaces the pending timer with one `DebounceDelay` ahead for that text; nothing is committed and the invariant is kept |
| DebouncedInput.PropsStep | src/core/components/CollectionTable/internal/fields/TableInput.tsx:59-79 | while unfocused, a changed prop set whose `value` is not the local text replaces it; otherwise the local text and timer stay; a rising edge of `focused` adds one focus action with the caret at the end of the text |
| DebouncedInput.Fired | src/core/components/CollectionTable/internal/fields/TableInput.tsx:42-48 | an expiring timer commits nothing or exactly its captured local text |
| DebouncedInput.AdvanceStep | src/core/components/CollectionTable/internal/fields/TableInput.tsx:42-53 | a timer due within the elapsed time fires once and is gone; otherwise nothing is committed |
| DebouncedInput.UnmountStep | src/core/components/CollectionTable/internal/fields/TableInput.tsx:51-53 | after unmount no timer is pending, so waiting commits nothing |
| DebouncedInput.BurstKeepsOneTimer | src/core/components/CollectionTable/internal/fields/TableInput.tsx:40-57 | keystrokes with no time passing commit nothing and leave either the old timer or one timer for the final local text |
| DebouncedInput.DebounceCommitsAtMostOnce | src/core/components/CollectionTable/internal/fields/TableInput.tsx:40-57 | after a burst of keystrokes with no time passing between them and one full delay, at most one commit follows and it carries the final local text; when the text changed, it is committed exactly when it differs from `value` (or is non-empty for an empty `value`) |
| DebouncedInput.TimedBurstCommitsOnce | src/core/components/CollectionTable/internal/fields/TableInput.tsx:40-57 | keystrokes each accepted, each changing the text and each followed by a pause shorter than the delay commit nothing, however long the burst lasts; they leave one timer, due one delay after the last keystroke, for the final text with the `value` of the burst's start; one more full delay commits that final text at most once, exactly when `ShouldCommit(value, final text)` holds for the `value` of the burst's start |
| DebouncedInput.KeystrokeRestartsTimer | src/core/components/CollectionTable/internal/fields/TableInput.tsx:40-92 | two keystrokes 200 apart: nothing is committed at 400, past the first keystroke's deadline, and the final text is committed at 500 |
| DebouncedInput.TypingThreeCharactersCommitsOnce | src/core/components/CollectionTable/internal/fields/TableInput.tsx:40-92 | typing "a", "ab", "abc" into an empty input commits "abc" exactly once |
| DebouncedInput.FocusedOncePerRisingEdge | src/core/components/CollectionTable/internal/fields/TableInput.tsx:70-79 | over any sequence of focus changes, the number of focus actions equals the number of unfocused-to-focused transitions |
| DebouncedInput.TableInput.constructor | src/core/components/CollectionTable/internal/fields/TableInput.tsx:36-79 | the fields start as `Mount` |
| DebouncedInput.TableInput.ScheduleUpdate | src/core/components/CollectionTable/internal/fields/TableInput.tsx:40-57 | the new state is `TimerEffect` of the old |
| DebouncedInput.TableInput.FocusLatch | src/core/components/CollectionTable/internal/fields/TableInput.tsx:69-79 | the new state is `FocusEffect` of the old |
| DebouncedInput.TableInput.Rendered | src/core/components/CollectionTable/internal/fields/TableInput.tsx:40-79 | the new state is `AfterRender` of the old |
| DebouncedInput.TableInput.OnChange | src/core/components/CollectionTable/internal/fields/TableInput.tsx:88-92 | the new state is `ChangeStep` of the old |
| DebouncedInput.TableInput.PropsChanged | src/core/components/CollectionTable/internal/fields/TableInput.tsx:59-79 | the new state is `PropsStep` of the old |
| DebouncedInput.TableInput.AdvanceTime | src/core/components/CollectionTable/internal/fields/TableInput.tsx:42-49 | the new state is `AdvanceStep` of the old |
| DebouncedInput.TableInput.Unmount | src/core/components/CollectionTable/internal/fields/TableInput.tsx:51-53 | the new state is `UnmountStep` of the old |

## Left out

- Rendering: JSX, MUI styles, `TableCell` layout and the `ErrorBoundary` containment. These are presentation, not logic.
- The widget components (TableSelect, NumberTableInput, TableSwitch, TableDateField, TableReferenceField, TableStorageUpload, PropertyPreview). They are not part of this model; the dispatcher returns which one is chosen and the descriptor fields it passes.
- `isReadOnly` is not part of this model: its result is the `readOnly` input of the dispatcher.
- `useClearRestoreValue` is not part of this model, because its source is not available.
- The `areEqual` memo comparator (`PropertyTableCell.tsx:367-379`) is not modelled. In the source, a re-render whose `value` is deep-equal to the previous one (with `selected`, `focused`, the size props and `property` unchanged) is skipped, so the `value` effect does not run and a local edit survives; `ValuePropStep` instead adopts every non-identical `value`, discarding the edit.
- A throw from `onValueChange` inside the resolution handler reaches the chained `.catch` (`PropertyTableCell.tsx:127-141`) and sets `error` after the commit; `ResolvedStep` assumes the commit callback returns normally.
- The yup `validate` call is an external asynchronous library. Each call is an outstanding validation that later resolves or rejects, in any order the events choose.
- `console.error` on rejection, and the DOM calls `focus()` and `selectionStart`/`selectionEnd` (recorded as a `FocusAndPlaceCaret` action).
- Floating-point numbers: `Num` holds integers, so `NaN` and `-0` (where `Object.is`, `===` and deep equality differ) are not modelled. Map, geopoint and timestamp values are also not part of `Value`.
- `size`, `align`, `width`, `height`, `entity`, `path`, `previewProperties`, `mode` and other props passed through to widgets unchanged.
- The caret position is the length of the shown text counted in Dafny characters (Unicode scalar values), whereas `value.length` in the browser counts UTF-16 code units; they differ for characters outside the Basic Multilingual Plane.
- The focus effect's `ref.current &&` guard is not modelled: the model assumes the text area is always attached when the effect runs.
- The `multiline` prop is fixed when a `TableInput` is constructed; a change of `multiline` between renders is not modelled.
- The `disabled` prop of the text area is passed through unchanged and not modelled.
- Real timers: a timer fires exactly when `AdvanceStep` reaches its deadline; the browser's lateness is not modelled.
- A `null` `disabled` prop (for which `typeof` gives "object") is not modelled: `disabled` is absent, `true`, or a config object.
- An unmounted cell's effects and the React rendering schedule beyond the order of effects within one render.

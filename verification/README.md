# Mini production toolkit: editor, history and persistence core in Dafny

This project models the core of a browser-based screenplay and pre-production
editor. The editor holds three things: a screenplay, storyboard panels and a
shot list. The model covers these parts:

- **History engine.** A bounded linear undo/redo stack of project snapshots
  (`History`), with the `pushState`, `undo` and `redo` rules and the button
  states.
- **Save and restore coordination.** The debounced autosave, the
  `isRestoring` flag that undo and redo raise, the save status, the store,
  load and import (`Session`).
- **Restore and capture.** The editor, storyboard grid and shot-list body
  rebuilt from a project, and read back into a snapshot (`Render`).
- **Plain-text export.** The screenplay export with its per-type layout
  (`Export`).
- **Editor rules.** Enter inserts the next element type; Tab cycles the type
  of a blank element; arrow keys, Enter, Tab and Escape drive the suggestion
  list (`Handlers`, `Script`, `Ui`). The suggestion-list handling is modelled
  with both faults listed under Findings corrected; see below.
- **Autocomplete.** The suggestion source: distinct normalised values in
  first-occurrence order (`Autocomplete`).
- **The single-file version of the application (`app.js`).** Its own
  Enter/Tab rules, save/load/import without history, and adding and deleting
  panels and shots with renumbering (`Legacy`).

`Text` holds the string primitives the sources rely on: `includes`, `trim`,
`toUpperCase`/`toLowerCase` on ASCII, and `lastIndexOf`. `Document` holds
the project values and the six class names.

The model is organised as follows:

- Mutable module state becomes a class with fields, proved against a
  value-level specification. `HistoryStack` follows `Timeline`, `App`
  follows `Session`, `LegacyApp` follows `LegacySession`, and
  `AutocompleteState` follows `Popup`.
- Each method's `ensures` ties the new state to the specification function.
- The lemmas about the specification functions state what the source
  promises.

The suggestion-list handling in js/ui.js and js/handlers.js is modelled in
two forms:

- **Corrected.** `Ui.AutocompleteState` with `Popup`, `Handlers.Selection`,
  `AcceptInto`, `Accepting`, `Keydown`, `HandleScriptKeydown`,
  `HandleAutocompleteSelection`, `Checked` and `CheckAutocomplete` describe
  the program with both faults listed under Findings corrected. Showing and
  hiding update the state the key handler reads, and accepting requires the
  selection to designate a shown suggestion. These are the members the rest
  of the model uses.
- **As written.** `Ui.Shared.ShowAsWritten`/`HideAsWritten`,
  `Handlers.CheckedAsWritten`, `ShownListIgnoredAsWritten`,
  `AcceptAsWritten` and `StaleSelectionAsWritten` model the code as it
  stands and exhibit each fault.

Some behaviour outside the program becomes parameters or explicit steps:

- Browser storage is a `map` from keys to stored text. Whether a read or a
  write succeeds is a boolean parameter (`readOk`, `writeOk`).
- The 1500 ms debounce timer is a slot (`pending`/`saveTimeout`). Its expiry
  is an explicit step (`Tick`, `TimerFires`).
- `crypto.randomUUID()` is `FreshId(n)`, drawn from a counter on the surface.
- The caret's element is an optional index into the script. Whether the
  document has a selection range is a boolean.
- The script markup is its sequence of top-level elements, each with a class
  attribute and a text.

Three behaviours of the code a reader may not expect:

- **First launch with a failing write.** `loadProjectData` with nothing
  stored ends with status `saved` even when its own first save failed.
  `saveProjectData` catches its own error and the load then sets `saved`
  (js/data.js:78-80; `Session.Session.Load`, `Session.FirstLaunchWriteFails`).
- **The first save after an undo or redo does nothing.** The flag is still
  raised when that debounced save runs. The save only lowers the flag, and
  the status stays `saving` (`Session.EditAfterUndoIsSwallowed`). The edit
  reaches the store only with the save of a later edit, which captures the
  whole screen (`Session.SecondEditAfterUndoPrunes`). It is lost if no later
  save happens.
- **ArrowUp with nothing selected.** Once the shared-state fault under
  Findings is corrected, it selects the second-to-last suggestion, not the
  last: `(-1 - 1 + n) % n` (`Handlers.MoveFromNothing`). In the code as
  written the arrow keys never reach the list.

## Model

| member | source | states |
|---|---|---|
| History.Timeline.Truncated | js/history.js:40-42 | the redo branch is cut: entries up to the cursor kept, cursor unchanged, redo disabled |
| History.Timeline.Push | js/history.js:38-61 | after a push the stack is valid and bounded, non-empty, and its cursor is on the newest entry, which is the pushed snapshot |
| History.Timeline.Undo | js/history.js:63-71 | one step back exactly when an earlier entry exists, entries unchanged, otherwise nothing changes |
| History.Timeline.Redo | js/history.js:73-81 | one step forward exactly when a later entry exists, entries unchanged, otherwise nothing changes |
| History.PushDuplicate | js/history.js:40-49 | pushing the current entry only prunes the redo branch, and shrinks the stack when one existed |
| History.PushFresh | js/history.js:40-58 | pushing a new snapshot keeps the entries up to the cursor, appends it and drops the oldest beyond 50 |
| History.PushIdempotent | js/history.js:47-49 | pushing the same snapshot twice in a row equals pushing it once |
| History.UndoRedoInverse | js/history.js:63-81 | undo then redo, and redo then undo, return to the same timeline |
| History.PruneAfterUndo | js/history.js:38-71 | three pushes, two undos and a new push leave the first entry and the new one, with redo disabled |
| History.PushAll | js/history.js:38-61 | any run of pushes keeps the stack valid |
| History.PushAllKeepsLast | js/history.js:51-58 | pushing a run of changing snapshots from the tip keeps exactly the last 50 of them, cursor on the newest |
| History.LastNAppend | js/history.js:55-58 | keeping the last n of a sequence extended by one is keeping the last n of the kept ones extended by it |
| History.BoundedGrowth | js/history.js:55-58 | after 60 changing pushes the stack holds 50 entries starting at the 11th snapshot |
| History.HistoryStack.constructor | js/history.js:5-6 | the stack starts empty with index -1 |
| History.HistoryStack.Push | js/history.js:38-61 | the in-place array and index end as `Timeline.Push` of the old ones |
| History.HistoryStack.Undo | js/history.js:63-71 | the stack ends as `Timeline.Undo`, and the snapshot to restore is returned exactly when undo is possible: the new current entry |
| History.HistoryStack.Redo | js/history.js:73-81 | the same for redo |
| History.HistoryStack.ButtonStates | js/history.js:11-36 | each button is enabled exactly when its action would move the cursor |
| Render.RestoredScript | js/render.js:65-71 | a non-empty script content is restored as is; an absent or empty one gives the default markup |
| Render.RenderedPanels | js/render.js:4-41 | one panel per item in order, each keeping its id or given a fresh one |
| Render.RenderedShots | js/render.js:43-63 | one row per item in order, each keeping its id or given a fresh one |
| Render.CapturedPanels | js/data.js:9-18 | captured panels are numbered by position, always carry an id (an existing one kept), keep their notes, and their image is empty or a `data:image` URI |
| Render.CapturedShots | js/data.js:20-30 | captured shots are numbered by position, always carry an id (an existing one kept) and copy the four fields |
| Render.CaptureIsCanonical | js/data.js:6-33 | every capture of a non-empty editor is canonical: ids present, numbers dense from 1, images empty or data URIs |
| Render.RestoreCaptureRoundTrip | js/data.js:6-33 | restoring a canonical snapshot and capturing it again gives the same snapshot, whatever ids were drawn |
| Render.EmptyScriptRestoresDefault | js/render.js:67-71 | an empty script is restored and captured as the default `SCENE 1` markup |
| Render.CaptureIgnoresSupply | js/data.js:13-23 | when every item has an id, a capture does not depend on the random ids on hand |
| Render.Surface.RenderStoryboards | js/render.js:4-41 | the grid is emptied and rebuilt as `RenderedPanels`, one fresh id drawn per item |
| Render.Surface.RenderShotlist | js/render.js:43-63 | the body is emptied and rebuilt as `RenderedShots` |
| Render.Surface.RenderProjectDataToDOM | js/render.js:65-75 | the surface shows the project, with absent lists read as empty |
| Render.Surface.Capture | js/data.js:6-33 | the snapshot returned is the one the screen content determines (`Snap`) |
| Render.ShowsThenCaptures | js/data.js:6-33 | once a canonical snapshot is shown, every capture answers that snapshot |
| Session.Lookup | js/data.js:66-67 | a failed read, a stored project, unparsable text, or nothing stored (an absent key and an empty string alike), each exactly in its case |
| Session.StoredPrimitiveRestoresDefault | js/data.js:66-80 | stored text that parses to a value other than an object is found as a project with no keys, restores the default script with no panels or shots, and ends `saved` |
| Session.Session.Save | js/data.js:47-62 | with the flag raised only the flag is lowered; a failed write gives `error` and stores nothing; otherwise the capture is stored, the status is `saved` and the timeline gets the second capture pushed |
| Session.Session.Debounce | js/data.js:87-91 | status `saving` and the timer armed, nothing else changed |
| Session.Session.Tick | js/data.js:90 | the timer ends disarmed and, when none was armed, nothing changes |
| Session.Session.Undo | js/history.js:63-71 | the timeline steps back and the flag is raised exactly when undo is possible |
| Session.Session.Redo | js/history.js:73-81 | the timeline steps forward and the flag is raised exactly when redo is possible |
| Session.Session.Load | js/data.js:64-85 | a failed read or unparsable text gives `error` only; a stored project is restored with status `saved`; nothing stored saves the new project and ends `saved` |
| Session.Session.Import | js/data.js:159-171 | a rejected file gives `error` only; an accepted one is marked `imported` and then saved |
| Session.DebounceCoalesces | js/data.js:87-91 | arming twice is arming once; two edits before the timer fires save once |
| Session.SaveRecords | js/data.js:54-57 | a successful save stores the capture and makes the pushed snapshot the newest history entry, redo disabled |
| Session.EditAfterUndoIsSwallowed | js/data.js:48-51 | after an undo the next save writes nothing, keeps the redo branch and leaves the status `saving` |
| Session.SecondEditAfterUndoPrunes | js/history.js:40-42 | the edit after that is saved and discards the redo branch |
| Session.ImportAfterUndoNotSaved | js/data.js:161-164 | an import right after an undo is neither stored nor recorded and stays `imported` |
| Session.RejectedImportChangesNothing | js/data.js:165-170 | a rejected import changes only the status |
| Session.FirstLaunch | js/data.js:70-80 | with nothing stored, the load stores the new project and records one entry, which the seeding push finds already there |
| Session.FirstLaunchWriteFails | js/data.js:78-80 | with nothing stored and a failing write, the status still ends `saved` and nothing is stored or recorded |
| Session.ShortcutOf | js/history.js:93-102 | undo runs exactly for Ctrl with `z` or `Z` and no Shift; redo exactly for Ctrl with `y` or `Y`, or with Shift and `z` or `Z`; the two never both apply, and nothing runs without Ctrl |
| Session.Shortcuts | js/history.js:94-98 | example: Ctrl+Z and Ctrl+z undo; Ctrl+Y, Ctrl+y (with or without Shift) and Ctrl+Shift+Z redo; no action without Ctrl |
| Session.App.constructor | js/state.js:3-15 | the session starts with no flag, no timer, status idle and an empty history |
| Session.App.PushState | js/history.js:38-61 | the current screen is captured and pushed; the content is unchanged |
| Session.App.SaveProjectData | js/data.js:47-62 | the session ends as `Session.Save` of the old one, with the captures the current content determines |
| Session.App.Record | js/data.js:55-57 | the successful branch: capture stored, status `saved`, screen pushed |
| Session.App.DebouncedSave | js/data.js:87-91 | the session ends as `Session.Debounce` |
| Session.App.TimerFires | js/data.js:90 | with no timer armed nothing changes; otherwise the timer is disarmed and the save runs |
| Session.App.Undo | js/history.js:63-71 | the session ends as `Session.Undo`; when undo was possible the surface shows the new current entry |
| Session.App.Redo | js/history.js:73-81 | the same for redo |
| Session.App.HistoryKeydown | js/history.js:93-102 | the shortcut's undo, redo or nothing; when that move is possible the surface shows the entry under the new cursor, and otherwise the content is unchanged |
| Session.App.InitializeHistory | js/history.js:85-88 | the seeding push records the screen |
| Session.App.LoadProjectData | js/data.js:64-85 | the session ends as `Session.Load` of the lookup, and the surface shows the stored or the new project |
| Session.App.ImportProject | js/data.js:151-177 | a rejected file leaves the content and ids alone with status `error`; an accepted one is shown and saved |
| Session.SaveOnScreen | js/data.js:54-57 | with every item carrying an id, both captures of a save are the snapshot on screen |
| Export.FormatLine | js/data.js:114-136 | every exported line ends in a line break, and a blank element gives an empty line |
| Export.FormatByKind | js/data.js:122-136 | a non-blank element is laid out by its type's margin, case and trailing blank line |
| Export.MarginIsExact | js/data.js:127-133 | the margin of a line is exactly its type's width, followed by the text's first non-blank character |
| Export.Lines | js/data.js:111-138 | one formatted line per element, in order |
| Export.JoinedAppend | js/data.js:111-138 | joining two runs of lines is concatenating their joins |
| Export.ScriptTextAppend | js/data.js:111-138 | exporting two runs of elements concatenates their exports |
| Export.BreaksAppend | js/data.js:118-135 | line breaks of a concatenation add up |
| Export.JoinedBreaks | js/data.js:118-135 | lines that each end in a break give at least one break per line |
| Export.LineBreaks | js/data.js:111-138 | the export has at least as many line breaks as the script has elements |
| Export.ExportScriptAsTxt | js/data.js:107-138 | the loop builds exactly the export of the script |
| Script.InsertPosition | js/handlers.js:49-50 | after the current element, or at the end without one |
| Script.InsertAfter | js/handlers.js:47-50 | one element inserted at that position, everything else shifted but unchanged |
| Script.RemoveAt | app.js:412 | the sequence without one item, the rest in order |
| Script.InsertThenRemove | js/handlers.js:47-50 | removing the inserted element gives the script back |
| Script.Retyped | js/handlers.js:63 | one element's class replaced, its text and every other element kept |
| Autocomplete.StripHeadingPrefix | js/autocomplete.js:9 | a leading `INT.` or `EXT.` (case-sensitive) goes with the blanks after it, otherwise nothing goes; the result is a suffix |
| Autocomplete.RunStart | js/autocomplete.js:9 | the start of the maximal blank run ending at a position |
| Autocomplete.TimeOfDayAt | js/autocomplete.js:9 | where a trailing time-of-day word starts, or none when the text ends in none |
| Autocomplete.StripTimeOfDay | js/autocomplete.js:9 | the result is a prefix of the text |
| Autocomplete.StripTimeOfDayRemovesMatch | js/autocomplete.js:9 | what is removed is blanks, a dash, blanks and a time of day, and what is left does not end in a blank |
| Autocomplete.StripTimeOfDayRemovesTrailing | js/autocomplete.js:9 | conversely, text ending in blanks, a dash, blanks and a time of day loses all of that, down to the last non-blank character before it |
| Autocomplete.NoTimeOfDayKept | js/autocomplete.js:9 | a heading without a trailing time of day keeps its end |
| Autocomplete.Value | js/autocomplete.js:8-11 | a value is trimmed; for other classes it is the trimmed text |
| Autocomplete.Dedup | js/autocomplete.js:6-13 | no duplicates; every kept string is non-empty and occurs |
| Autocomplete.DedupMembers | js/autocomplete.js:11 | a string is kept exactly when it is non-empty and occurs |
| Autocomplete.DedupOrder | js/autocomplete.js:7-13 | kept strings follow first-occurrence order |
| Autocomplete.Candidates | js/autocomplete.js:5-10 | each element offers its normalised text when of the class, nothing otherwise |
| Autocomplete.UniqueValues | js/autocomplete.js:3-14 | no duplicates; every value is non-empty and trimmed |
| Autocomplete.UniqueValuesMembers | js/autocomplete.js:5-11 | a value is suggested exactly when an element of the class yields it |
| Autocomplete.UniqueValuesOrder | js/autocomplete.js:7-13 | suggestions follow document order of first occurrence |
| Autocomplete.PrefixSample | js/autocomplete.js:9 | example: `INT. KITCHEN - NIGHT` loses `INT. ` |
| Autocomplete.LowerCasePrefixSample | js/autocomplete.js:9 | example: `int. kitchen` keeps its prefix |
| Autocomplete.TimeOfDaySample | js/autocomplete.js:9 | example: `KITCHEN - NIGHT` loses ` - NIGHT` |
| Autocomplete.HeadingSample | js/autocomplete.js:8-11 | example: the heading `INT. KITCHEN - NIGHT` is suggested as `KITCHEN` |
| Autocomplete.GetUniqueValues | js/autocomplete.js:3-14 | the loop over the elements builds exactly `UniqueValues` |
| Ui.Popup.Hide | js/ui.js:88-95 | not shown, no suggestions, selection -1, no target, the word kept |
| Ui.Popup.Show | js/ui.js:64-86 | an empty list hides; otherwise the list is shown and the selection, target and word are kept |
| Ui.ShowHideIdempotent | js/ui.js:64-95 | showing a list twice is showing it once; hiding twice is hiding once |
| Ui.ShowEmptyIsHide | js/ui.js:66-69 | showing the empty list is hiding, and the word survives |
| Ui.Shared.HideAsWritten | js/ui.js:88-95 | as written, hiding resets the top-level fields and leaves the autocomplete state untouched |
| Ui.Shared.ShowAsWritten | js/ui.js:64-86 | as written, showing puts the list in the top-level fields and leaves the autocomplete state untouched |
| Ui.AutocompleteState.constructor | js/state.js:6-12 | inactive, no suggestions, selection -1, no target, empty word |
| Ui.AutocompleteState.HideAutocomplete | js/ui.js:88-95 | corrected shared state: the autocomplete fields end as `Popup.Hide` (as written: `Ui.Shared.HideAsWritten`) |
| Ui.AutocompleteState.ShowAutocomplete | js/ui.js:64-86 | corrected shared state: the autocomplete fields end as `Popup.Show` (as written: `Ui.Shared.ShowAsWritten`) |
| Ui.ChangedType | js/ui.js:48-61 | the current element gets the new type with its text kept, or a new empty element of that type is appended; nothing else changes |
| Ui.ChangeCurrentElementType | js/ui.js:48-61 | the script ends as `ChangedType` and a save is scheduled |
| Handlers.IndexOf | js/handlers.js:60 | the first position of the class, or -1 exactly when it is not listed |
| Handlers.TabClass | js/handlers.js:59-63 | Tab always gives a listed type |
| Handlers.TabChangesClass | js/handlers.js:59-63 | with two or more distinct types, Tab always changes the class |
| Handlers.IndexOfListed | js/handlers.js:60 | in a list without repeats, a listed class is found at its own position |
| Handlers.CycleAdd | js/handlers.js:55-66 | a + b presses are a presses followed by b presses |
| Handlers.CycleForward | js/handlers.js:62-63 | each press moves a listed class one place down the list |
| Handlers.CycleFromLast | js/handlers.js:62 | from the last type, i + 1 presses wrap around to the type at i |
| Handlers.CycleClosesAt | js/handlers.js:62-63 | one press per listed type brings the type at each position back |
| Handlers.TabCycleCloses | js/handlers.js:62-63 | one press per listed type brings every listed class back |
| Handlers.EditorTabCycle | js/handlers.js:55-66 | six presses bring each of the six types back |
| Handlers.TabUnlisted | js/handlers.js:61 | an unlisted class becomes a character (index 0 plus one) |
| Handlers.TabDialogAndHeading | js/handlers.js:7 | dialog becomes transition; scene heading wraps around to action |
| Handlers.ElementTypesApart | js/handlers.js:7 | example: the six types are distinct |
| Handlers.NextClass | js/handlers.js:37-46 | Enter always inserts one of the six types, an action without a current element |
| Handlers.EnterRule | js/handlers.js:40-45 | each type is followed by its successor in the table, and an attribute with none of the six names by an action |
| Handlers.JsRem | js/handlers.js:13-19 | JavaScript's remainder: strictly between -n and n, Euclidean on non-negative operands |
| Handlers.Moved | js/handlers.js:11-22 | ArrowDown selects the next suggestion, wrapping from the last to the first; ArrowUp the previous, wrapping from the first to the last (for an index inside the list); the selection stays inside the list and nothing else changes |
| Handlers.DownUpInverse | js/handlers.js:11-22 | down then up, and up then down, restore a selection |
| Handlers.MoveFromNothing | js/handlers.js:13-19 | from no selection down selects the first suggestion and up the second-to-last (the only one in a list of one) |
| Handlers.LastWord | js/handlers.js:79-80 | the word being completed is the longest suffix without blanks or `(`, preceded by one |
| Handlers.Filtered | js/handlers.js:84 | a value is offered exactly when it is a source value that starts with the word case-insensitively and differs from it |
| Handlers.FilteredAppend | js/handlers.js:84 | filtering keeps order and multiplicity: it distributes over concatenation, and a one-element list is kept exactly when its value is suggested |
| Handlers.FilteredOrder | js/handlers.js:84 | a suggested value keeps its place between the filtered values before and after it |
| Handlers.AcceptedText | js/handlers.js:112-114 | the new text ends with the accepted value, after a prefix of the old text |
| Handlers.AcceptReplacesTrailingWord | js/handlers.js:113-114 | completing the word the text ends with replaces just that word |
| Handlers.AcceptWithoutWord | js/handlers.js:113-114 | when the word does not occur the whole text is replaced |
| Handlers.JsIndex | js/handlers.js:108 | an array read: the element, or `undefined` out of range |
| Handlers.AcceptAsWritten | js/handlers.js:105-114 | as written, acceptance goes ahead exactly when the index is not -1 and a target exists |
| Handlers.Selection | js/handlers.js:106-108 | with the range guard corrected: the selected suggestion exists exactly when the index designates a shown one (as written: `Handlers.AcceptAsWritten`) |
| Handlers.Offer | js/handlers.js:91-93 | target and word recorded, then the list shown with the selection kept, or hidden when empty |
| Handlers.StaleSelectionAsWritten | js/handlers.js:91-114 | a shorter list keeps a selection beyond it, and accepting then writes `undefined` |
| Handlers.AcceptInto | js/handlers.js:105-124 | with the range guard corrected: a completion is written exactly when a shown suggestion is selected and a target exists; only the target changes (as written: `Handlers.StaleSelectionAsWritten`) |
| Handlers.AcceptedIsOffered | js/handlers.js:108-114 | an accepted completion ends the target's text with a shown suggestion and keeps its class |
| Handlers.Accepting | js/handlers.js:105-124 | with the range guard corrected: accepting keeps the autocomplete state valid |
| Handlers.Keydown | js/handlers.js:9-67 | without a shown list, Enter inserts the next type after the current element and Tab retypes a blank element, each scheduling a save |
| Handlers.ShownListCapturesEnterAndTab | js/handlers.js:23-27 | corrected shared state: with a list shown, Enter and Tab never insert or retype, and change the script only by accepting a shown suggestion (as written: `Handlers.ShownListIgnoredAsWritten`) |
| Handlers.TabNeedsBlankElement | js/handlers.js:55-58 | Shift+Tab, or Tab with no element or on a non-blank one, does nothing and schedules nothing |
| Handlers.EnterInsertsOne | js/handlers.js:34-53 | Enter inserts exactly one empty element of the next type at the insert position and schedules a save |
| Handlers.Offered | js/handlers.js:77-84 | suggestions only for characters and scene headings with a word to complete |
| Handlers.Checked | js/handlers.js:69-103 | the state after checking stays valid |
| Handlers.CheckedOffers | js/handlers.js:69-103 | a shown list targets the current character or heading, holds its trailing word, and offers only values of that class that extend the word |
| Handlers.CheckedAsWritten | js/handlers.js:91-101 | as written, checking never changes whether the autocomplete state is active, nor its list or selection |
| Handlers.ShownListIgnoredAsWritten | js/handlers.js:10-53 | as written, a list put on screen is not the active list, and Enter then inserts a new element |
| Handlers.HandleAutocompleteSelection | js/handlers.js:105-125 | with the range guard corrected: the script and state end as `Accepting`, and a save is scheduled exactly when a completion is written |
| Handlers.HandleScriptKeydown | js/handlers.js:9-67 | the script, autocomplete state and session end as `Keydown` says |
| Handlers.Suggestions | js/handlers.js:76-84 | the list computed is `Offered` |
| Handlers.OfferSuggestions | js/handlers.js:91-93 | the state ends as `Offer` |
| Handlers.CheckAutocomplete | js/handlers.js:69-103 | the state ends as `Checked` |
| Legacy.LegacyNextClass | app.js:286-295 | Enter always inserts one of the six types, an action without a current element |
| Legacy.LegacyEnterRule | app.js:289-294 | on a single class name, an action is followed by an action and every other type by its successor |
| Legacy.EnterRulesDiffer | app.js:289-294 | the two versions' Enter rules agree on a single class name exactly when it is not an action |
| Legacy.MixedLacksOthers | app.js:289-294 | example: the two-class attribute contains none of the other four names |
| Legacy.MixedHasCharacter | app.js:291 | example: the two-class attribute passes the character test |
| Legacy.MixedHasDialog | app.js:292 | example: the two-class attribute passes the dialog test |
| Legacy.LastMatchWins | app.js:289-294 | on `script-character script-dialog` the module version inserts a dialog and this one a character: here the last matching test decides |
| Legacy.LegacyTypesApart | app.js:258 | example: the five types are distinct |
| Legacy.DialogUnlisted | app.js:258 | dialog is not in this version's Tab list |
| Legacy.LegacyTabCycle | app.js:303-314 | five presses bring each of the five types back |
| Legacy.LegacyTabOnDialog | app.js:308-311 | Tab on a dialog gives a character, and Tab never gives a dialog |
| Legacy.LegacyKeydown | app.js:282-315 | Enter inserts exactly one element, of the class the last matching test names, after the current element and schedules a save; Tab on a blank element retypes it to the next of the five types whatever the Shift key and schedules a save, and on no element or a non-blank one does nothing; other keys do nothing |
| Legacy.ShiftTabRetypes | app.js:303-314 | Shift+Tab on a blank element retypes it here, while the module version leaves it alone |
| Legacy.LegacySession.Save | app.js:82-92 | a successful write stores the capture with status `saved`; a failed one gives `error` and stores nothing |
| Legacy.LegacySession.Debounce | app.js:123-127 | status `saving`, timer armed, store unchanged |
| Legacy.LegacySession.Tick | app.js:126 | the timer ends disarmed; the save runs exactly when one was armed |
| Legacy.LegacySession.Load | app.js:95-116 | a failed read or unparsable text gives `error` only; a stored project gives `saved`; nothing stored stores the new project and ends `saved` |
| Legacy.LegacySession.Import | app.js:213-224 | a rejected file gives `error` only; an accepted one is saved |
| Legacy.SaveAgreesUnlessRestoring | app.js:82-92 | without the flag the two versions' saves agree on timer, status and store; with it only this version writes |
| Legacy.LoadAndImportAgree | app.js:95-231 | without the flag the two versions' load and import agree on timer, status and store |
| Legacy.EveryEditSaved | app.js:123-127 | here every edit is stored when its timer fires |
| Legacy.RenumberedPanels | app.js:413-415 | every heading reads its position, ids, images and notes kept |
| Legacy.RenumberedShots | app.js:422-424 | every number cell reads its position, all else kept |
| Legacy.DeletedPanelLeavesProject | app.js:410-417 | deleting a panel and capturing gives the old capture without that panel, later ones moved up and renumbered |
| Legacy.DeletedShotLeavesProject | app.js:419-426 | the same for shots |
| Legacy.LegacyApp.constructor | app.js:118-121 | no timer, status idle, the given store |
| Legacy.LegacyApp.SaveProjectData | app.js:82-92 | the state ends as `LegacySession.Save` with the capture of the screen; the content is unchanged |
| Legacy.LegacyApp.DebouncedSave | app.js:123-127 | the state ends as `LegacySession.Debounce` |
| Legacy.LegacyApp.TimerFires | app.js:126 | the state ends as `LegacySession.Tick` |
| Legacy.LegacyApp.LoadProjectData | app.js:95-116 | the state ends as `LegacySession.Load` of the lookup, and the surface shows the stored or the new project |
| Legacy.LegacyApp.ImportProject | app.js:205-231 | a rejected file leaves the content alone with `error`; an accepted one is shown and saved |
| Legacy.LegacyApp.HandleScriptKeydown | app.js:282-315 | the script and state end as `LegacyKeydown` says |
| Legacy.LegacyApp.AddStoryboardPanel | app.js:339-366 | an empty panel with a fresh id is appended, headed one more than the panels shown, numbering kept dense, save scheduled |
| Legacy.LegacyApp.AddShot | app.js:368-387 | the same for shot rows |
| Legacy.LegacyApp.DeletePanel | app.js:410-417 | the panel is removed and every remaining heading is renumbered by position, save scheduled |
| Legacy.LegacyApp.DeleteShot | app.js:419-426 | the row is removed and every remaining number cell is renumbered by position, save scheduled |
| Document.ClassNamesApart | js/handlers.js:40-45 | none of the six class names occurs inside another |
| Document.Kind | js/data.js:122-136 | the type an element is taken for is one of the six, and its attribute contains it |
| Document.KindOfType | js/data.js:122-136 | an element with exactly one of the six names is taken for that type |
| Document.KindOfUnknown | js/data.js:134-135 | an attribute containing none of the names is taken for no type |
| Text.TrimStart | js/autocomplete.js:9 | leading blanks removed, and only those |
| Text.TrimEnd | js/handlers.js:58 | trailing blanks removed, and only those |
| Text.TrimIsTrimmed | js/autocomplete.js:11 | a trimmed string has no blank at either end, and trimming again changes nothing |
| Text.LastIndexOf | js/handlers.js:113 | the last occurrence of the word, or -1 when there is none |
| Text.ContainsOccurs | js/handlers.js:40-45 | `includes` holds only at some occurrence |
| Text.OccursContains | js/handlers.js:40-45 | an occurrence makes `includes` hold |

## Left out

- Markup, styling and layout are not modelled: HTML templates, CSS classes, the status label texts and colours (js/state.js:17-45), the suggestion list's position, section switching and the theme.
- Browser storage, `JSON.stringify`/`JSON.parse`, `FileReader` and file downloads are not modelled. The store is a map, and parse results are values: `Malformed` for stored text that does not parse or parses to `null` (the load throws on both), `None` for such an imported file. Text that parses to a number, a boolean, a string or an array reads as `NoKeys`, a project with none of its keys: a load restores the default script with status `saved`, an import refuses it. A project whose `storyboardPanels` or `shotList` is present but not an array (`5`, `{}`, `"x"`), or holds `null` items, is not modelled: `ProjectData` cannot hold it. In the program the restore throws part-way, so a load or an import ends `error` after part of the screen was already replaced.
- `exportProject` (the JSON download) and the Blob download of the text export are not modelled; they are I/O.
- Importing when no file is chosen does nothing and is not modelled.
- Timers are not modelled in time. A pending save is a slot and its expiry an explicit step. The 100 ms seeding delay of `initializeHistory` is the separate step `InitializeHistory`.
- Caret placement (`setSelection`, `getSelectionParent`, ranges) is not modelled. The caret's element is an optional index supplied by the caller, and the suggestion target is an index rather than an element reference.
- Text is ASCII only: `trim` and the regular expressions' `\s` use a fixed set of blanks, and upper/lower case maps ASCII letters only.
- `querySelectorAll('.cls')` matches by whole-attribute equality in `Autocomplete.Candidates`. An element carrying several classes is therefore not found by one of them.
- The text export walks the top-level elements only. Loose text nodes in the editor are not modelled.
- A non-string `scriptContent` is not modelled. Script content is always a sequence of elements.
- Fresh ids are drawn one per panel or row visited, whether or not an id is missing. The model therefore fixes which fresh id an item gets; the source's random ids only promise to be distinct.
- Image upload and removal, drag reordering and the click handlers that open the file picker are outside this model.
- js/data.js:35-45 declares a second `renderProjectDataToDOM` in the module that also imports one from js/render.js. The model uses the js/render.js version. The app.js render, capture and element-type functions are the same as the module version's, so the model reuses them.
- The handler that calls `checkAutocomplete` is not part of this model. So is any mouse handler that sets the autocomplete selection.
- Session.Session.Tick: states disarming and the no-timer case. The save it runs is `Session.Save`, whose contract states the rest.
- Handlers.Accepting: states only that the state stays valid; `Handlers.AcceptInto` and `Handlers.AcceptedIsOffered` state what is written.
- Handlers.Checked: states only that the state stays valid; `Handlers.CheckedOffers` states what is shown.
- Restoring takes the HTML templates as lossless. js/render.js:30 and js/render.js:52-55 (likewise app.js:153 and app.js:176-179) paste panel notes and shot fields into markup without escaping, and the model reads each value back unchanged. `Render.RestoreCaptureRoundTrip`, `Render.ShowsThenCaptures` and `Legacy.DeletedPanelLeavesProject` rest on this. In the program the round trip fails for some values:
  - a scene number or shot type containing `"` (a shot type `CU "hero"` becomes `value="CU "hero""` and reads back as `CU `);
  - notes or a description containing `</textarea>`, which ends the field early;
  - text containing a character reference such as `&amp;`, which is decoded;
  - notes or a description beginning with a line break, which the text area drops.

## Findings

| source | as written | input that shows it | evidently intended | confidence | as-written member | corrected member |
|---|---|---|---|---|---|---|
| js/ui.js:4, 84-85, 91-94 | `state` is imported under the name `autocompleteState`, so `showAutocomplete` and `hideAutocomplete` write top-level fields of the state. The nested `state.autocomplete` that js/handlers.js:10 tests is never made active. | A character element reads `BOBBY`; type `BOB` in another character element. The list `BOBBY` is put on screen, but Enter inserts a dialog element instead of completing the word. | Both functions update `state.autocomplete`, so the shown list receives the arrow keys, Enter, Tab and Escape | not executed | Handlers.ShownListIgnoredAsWritten (with Ui.Shared.ShowAsWritten, Handlers.CheckedAsWritten) | Ui.AutocompleteState.ShowAutocomplete, Handlers.CheckAutocomplete, Handlers.ShownListCapturesEnterAndTab |
| js/handlers.js:106-114, js/ui.js:84-85 | Showing a new list keeps `selectedIndex`. Accepting then reads `suggestions[selectedIndex]` with only a -1 check, so an index beyond a shorter list inserts `undefined`. This applies once the shared-state fault above is corrected. | List `BOB, BOBBY, BOBBIE, BOBO` for word `B`, ArrowDown four times (index 3). Typing to `BOBB` shows `BOBBY, BOBBIE`; Enter turns the text into `undefined`. | Accept only a selection that designates a shown suggestion | not executed | Handlers.StaleSelectionAsWritten (with Handlers.AcceptAsWritten) | Handlers.AcceptInto, Handlers.AcceptedIsOffered, Handlers.HandleAutocompleteSelection |

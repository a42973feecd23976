# Ghost text for CKEditor 5, modelled in Dafny

This project models the editing core of the CKEditor 5 ghost-text plugin.
The plugin shows an AI suggestion as an inline `ghostText` element at the cursor.
Tab (or a click on the ghost) commits the suggestion as real text.
Typing the suggestion's next letter consumes that letter.
Any other insertion aborts the running fetch and, after a debounce, fetches again; a deletion or a cursor move away from the ghost removes the ghost and stops loading instead, while the suggestion text is kept.
A fetch goes through a single-flight wrapper: starting one aborts the previous one.
The content fetcher may answer with a string or with a stream of chunks.

The model has three layers.

- **Document and commands.** `DocModel` models the editor's model document as a flat run of items (characters with attribute names, and ghosts with `data-value` and `loading`). It also holds the selection, the selection's attributes and whether a root exists. Positions follow the host's live selection. The four commands (`RemoveCommand`, `InsertCommand`, `ValueCommand`, `LoadingCommand`) and the two older commands (`LegacyValueCommand`, `LegacyLoadingCommand`) are classes over a shared `EditorModel`. Each is proved against a function on documents. The older commands differ only when there is no focus: they return, where the current ones throw. Each older command's function is proved equal to the current one's resulting document.
- **Timer and fetch.** `Debounce` models `debounce` as a one-slot timer, with lemmas about runs of events. `FetchContent` models the abort controllers, the wrapper's cancellation check, the error handler and the stream loop's outcome (`Drain`).
- **The plugin.** `EditingSpec` gives one transition function per handler over a `PluginState` value, with the properties of the suggestion lifecycle as lemmas. `Editing.GhostTextEditing` is the plugin class. Its handlers drive the commands, the debouncer and the controller. Each handler is proved to make its `EditingSpec` transition.

Events are the interface.

- The host calls a handler for each event: a key press, an insertion or deletion (with the differ's changes), a selection change, a click, the debounce timer firing, and the content fetcher settling.
- `insertGhostText` is split at its `await` into `InsertGhostText` and `OnFetchSettled`.
- A stream reply is its list of chunks plus the read at which its signal first reads aborted, if any.

The model follows the code where it differs from the plugin's documented behaviour:

- `clearGhostText` does not reset the suggestion, so a Tab right after a clear commits the old text (`AcceptAfterClearCommitsOldText`).
- A stream whose fetch was already aborted still runs its loop. The loop empties the suggestion and leaves loading on, because the cancelled path skips `isLoading = false` (`AbortedStreamStaysLoading`).
- A click on the ghost accepts with no loading or empty check (`Click`).
- `removeGhostLetter` compares an inserted text proxy's whole data, not one character, with the suggestion's first letter (`MatchIsOneLetter`).
- Without a content fetcher the plugin stays loading (`NoFetcherStaysLoading`).
- Because the suggestion text survives a clear, typing its first letter afterwards narrows it and brings its ghost back (`StaleSuggestionReturns`).
- A non-matching insertion while a fetch is loading aborts that fetch but leaves `isLoading` on. The aborted reply is swallowed as cancelled, so loading stays on and every later debounce firing is skipped until something clears (`MismatchWhileLoadingSticks`).
- The suggestion's first letter is compared as `ghostText[0]`, one UTF-16 code unit. A suggestion that starts with a character outside the Basic Multilingual Plane therefore never narrows, since that unit is half of a surrogate pair (`AstralFirstLetterNeverNarrows`).

## Model

| member | source | states |
|---|---|---|
| DocModel.FirstPosition | src/ghost-text-insert-command.ts:7-10 | present exactly when there is a selection; it is the earlier of anchor and focus |
| DocModel.IsCollapsed | src/ghost-text-editing.ts:255 | `selection.isCollapsed`; a collapsed selection's first position is its focus |
| DocModel.NodeAfter | src/ghost-text-editing.ts:256 | present exactly when the collapsed focus has an item after it, and then it is that item |
| DocModel.IsGhostText | src/ghost-text-editing.ts:397-399 | false for `null`; for a present item, true exactly when it is a `ghostText` element |
| DocModel.InsertAt | src/ghost-text-insert-command.ts:16 | the items go in at the position; anchor and focus at or after it move by the inserted length |
| DocModel.InsertAtCounts | src/ghost-text-insert-command.ts:16 | an insertion adds exactly the inserted items' ghosts and splices their committed items in place |
| DocModel.RemoveAt | src/ghost-text-remove-command.ts:19 | the item is gone and nothing else is; removing a ghost keeps the committed content; later positions move back by one |
| DocModel.FirstGhost | src/ghost-text-remove-command.ts:13-21 | the index of a ghost with no ghost before it, or none exactly when the items hold no ghost |
| DocModel.SetSelection | src/ghost-text-command.ts:20 | the selection collapses at the position; items, attributes and root unchanged |
| DocModel.PlaceGhost | src/ghost-text-command.ts:12-20 | the ghost sits right after a collapsed cursor at the old focus; one more ghost; committed content unchanged |
| DocModel.EditorModel.Insert | src/ghost-text-insert-command.ts:16 | the document becomes the insertion result |
| DocModel.EditorModel.Remove | src/ghost-text-remove-command.ts:19 | the document becomes the removal result |
| DocModel.EditorModel.SetSelectionAt | src/ghost-text-command.ts:20 | the document becomes the collapsed-selection result |
| DocModel.EditorModel.constructor | src/ghost-text-remove-command.ts:5-7 | the editor's model starts with the given well-formed document |
| RemoveCommand.GhostPositions | src/ghost-text-remove-command.ts:13-15 | exactly the indices of the ghosts, in increasing order |
| RemoveCommand.RemoveFirstGhost | src/ghost-text-remove-command.ts:4-23 | without a root, or without ghosts, nothing changes; otherwise exactly the first ghost is removed; committed content is always kept |
| RemoveCommand.GhostTextRemoveCommand.Execute | src/ghost-text-remove-command.ts:4-23 | the document becomes the result of removing the first ghost |
| RemoveCommand.RemoveGhostAtCursor | src/ghost-text-remove-command.ts:17-22 | removing the only ghost, right after the cursor, leaves the selection where it was and no ghost |
| RemoveCommand.ReplaceGhost | src/ghost-text-command.ts:6-21 | removal first, then the new ghost at the focus; the insertion throws exactly when there is no selection; committed content kept |
| RemoveCommand.ReplaceGhostInPlace | src/ghost-text-command.ts:9-20 | when the old ghost sat at the cursor, the new ghost takes its index and nothing else in the document moves |
| InsertCommand.TextItems | src/ghost-text-insert-command.ts:14 | one character item per character of the value, carrying the attributes |
| InsertCommand.TextItemsHaveNoGhost | src/ghost-text-insert-command.ts:14 | created text holds no ghost and is all committed content |
| InsertCommand.InsertText | src/ghost-text-insert-command.ts:4-18 | without a selection nothing changes; otherwise the text goes in at the first position, with the selection's attributes, and the selection follows |
| InsertCommand.InsertTextChars | src/ghost-text-insert-command.ts:11-16 | character `i` of the value lands at the first position plus `i`, with the selection's attributes |
| InsertCommand.GhostTextInsertCommand.Execute | src/ghost-text-insert-command.ts:4-18 | the document becomes the committed-text result |
| ValueCommand.ValueEdit | src/ghost-text-command.ts:6-22 | throws exactly when there is no focus, after the removal; otherwise a collapsed cursor sits right before a ghost carrying the value; committed content kept |
| ValueCommand.GhostTextCommand.Execute | src/ghost-text-command.ts:6-22 | `value` becomes the argument and the document and throw flag are those of `ValueEdit` |
| ValueCommand.GhostTextCommand.constructor | src/ghost-text-command.ts:4 | `value` starts as the empty string |
| LoadingCommand.LoadingEdit | src/ghost-text-loading-command.ts:6-25 | `false` changes nothing in the document; `true` shows a loading ghost at the cursor, throwing exactly when there is no focus |
| LoadingCommand.GhostTextLoadingCommand.Execute | src/ghost-text-loading-command.ts:6-25 | `value` becomes the argument and the document and throw flag are those of `LoadingEdit` |
| LoadingCommand.GhostTextLoadingCommand.constructor | src/ghost-text-loading-command.ts:4 | `value` starts as false |
| LegacyValueCommand.LegacyValueEdit | src/ghosttextcommand.ts:6-25 | with no focus, only the removal happens; in every case the document equals the current command's |
| LegacyValueCommand.GhostTextCommand.Execute | src/ghosttextcommand.ts:6-25 | `value` becomes the argument and the document becomes `LegacyValueEdit` |
| LegacyValueCommand.GhostTextCommand.constructor | src/ghosttextcommand.ts:4 | `value` starts as the empty string |
| LegacyLoadingCommand.LegacyLoadingEdit | src/ghosttextloadingcommand.ts:6-28 | `false` changes nothing; with no focus only the removal happens; in every case the document equals the current command's |
| LegacyLoadingCommand.GhostTextLoadingCommand.Execute | src/ghosttextloadingcommand.ts:6-28 | `value` becomes the argument and the document becomes `LegacyLoadingEdit` |
| LegacyLoadingCommand.GhostTextLoadingCommand.constructor | src/ghosttextloadingcommand.ts:4 | `value` starts as false |
| Debounce.Step | src/utils.ts:7-14 | a call runs only when the timer fires, and it is the pending one; only `debounced` leaves a call pending |
| Debounce.Run | src/utils.ts:1-20 | a run of events runs at most one call per firing |
| Debounce.CallsBoundedByArms | src/utils.ts:7-10 | calls that ran plus a pending call never outnumber the `debounced` calls (and the slot the run began with) |
| Debounce.LatestArgsWin | src/utils.ts:7-10 | the firing that follows a `debounced` call runs it with that call's arguments |
| Debounce.BurstLeavesOnePending | src/utils.ts:8-9 | a burst of `debounced` calls runs nothing and leaves exactly the last call pending |
| Debounce.BurstRunsOnce | src/utils.ts:7-10 | a burst followed by one firing runs the function once, with the last arguments |
| Debounce.CancelledCallNeverRuns | src/utils.ts:12-14 | after `cancel`, nothing runs until `debounced` is called again |
| Debounce.CancelIdempotent | src/utils.ts:12-14 | cancelling with nothing pending does nothing; cancelling twice is cancelling once |
| Debounce.Debouncer.constructor | src/utils.ts:5 | the timer slot starts empty |
| Debounce.Debouncer.Debounced | src/utils.ts:7-10 | the slot holds the new arguments, replacing any pending call |
| Debounce.Debouncer.Cancel | src/utils.ts:12-14 | the slot is emptied |
| Debounce.Debouncer.Fire | src/utils.ts:9 | the pending call, if any, is handed back to run and the slot is emptied |
| FetchContent.HandleInsertError | src/ghost-text-editing.ts:389-395 | swallowed exactly for the cancellation message, rethrown otherwise, with the same error |
| FetchContent.FlightAfterStart | src/ghost-text-editing.ts:364-372 | the previous controller is aborted and a fresh, live one becomes current; single flight is kept |
| FetchContent.FlightAfterAbort | src/ghost-text-editing.ts:273 | the current controller is aborted, so every controller made so far is aborted; single flight is kept |
| FetchContent.AtMostOneLive | src/ghost-text-editing.ts:364-372 | a controller that is not aborted is the current one |
| FetchContent.WrapperCheck | src/ghost-text-editing.ts:374-379 | a resolution passes exactly when its controller is live, and otherwise becomes the cancellation rejection; a rejection passes through |
| FetchContent.SupersededFetchIsCancelled | src/ghost-text-editing.ts:364-379 | once a newer fetch starts, any result of an older one becomes the cancellation rejection |
| FetchContent.Drain | src/ghost-text-editing.ts:327-344 | an abort seen at some check leaves an empty suggestion, with loading on only if seen before the first read; otherwise the suggestion is the concatenation of all chunks and loading is off |
| FetchContent.LastController.constructor | src/ghost-text-editing.ts:359-361 | no current controller and none made yet, which satisfies the single-flight invariant |
| FetchContent.LastController.Start | src/ghost-text-editing.ts:364-372 | the controllers become those of `FlightAfterStart`, with the new controller's number returned |
| FetchContent.LastController.AbortCurrent | src/ghost-text-editing.ts:273 | the controllers become those of `FlightAfterAbort` |
| EditingSpec.MergeKeystrokes | src/ghost-text-editing.ts:53-56 | every binding set in the configuration (even to `undefined`) replaces the default; a binding not set keeps its default |
| EditingSpec.ApplyTextDecoration | src/ghost-text-editing.ts:92-111 | the text is wrapped in `<ins>`, `<i>`, `<b>` opening tags outermost first and their closing tags innermost first, one per mark set; with no mark the text is unchanged |
| EditingSpec.ThreeWraps | src/ghost-text-editing.ts:96-110 | three nested optional wrappers equal the opening tags, then the text, then the closing tags |
| EditingSpec.ToLower | src/ghost-text-editing.ts:193-194 | same length, each character mapped to lower case |
| EditingSpec.Truthy | src/ghost-text-editing.ts:189 | the suggestion is truthy exactly when the text it would commit is non-empty |
| EditingSpec.TextOf | src/ghost-text-insert-command.ts:14 | the text `createText` makes of the suggestion: empty for `undefined`, the value otherwise |
| EditingSpec.WithText | src/ghost-text-editing.ts:290-292 | the suggestion and the ghost at the cursor both carry the new value; committed content and everything else unchanged |
| EditingSpec.WithLoading | src/ghost-text-editing.ts:282-284 | `false` only lowers the flag; `true` shows a loading ghost at the cursor; committed content unchanged |
| EditingSpec.Clear | src/ghost-text-editing.ts:270-275 | not loading, no pending timer, no ghost, every controller aborted; the suggestion and committed content kept |
| EditingSpec.ClearIdempotent | src/ghost-text-editing.ts:270-275 | clearing twice is clearing once |
| EditingSpec.Apply | src/ghost-text-editing.ts:204-211 | the suggestion becomes empty, no ghost remains, and only the suggestion and the document change |
| EditingSpec.ApplyCommits | src/ghost-text-editing.ts:204-211 | the old suggestion's text is committed where the ghost was, with the selection's attributes, and the cursor ends after it |
| EditingSpec.CommitAtCursor | src/ghost-text-editing.ts:209-210 | inserting text before the single ghost and then removing the ghost puts the text in the ghost's place, cursor after it |
| EditingSpec.AcceptCommitsSuggestion | src/ghost-text-editing.ts:204-211 | with the ghost at the cursor, accepting replaces the ghost by the suggestion's characters and leaves the cursor after them |
| EditingSpec.AcceptKeystroke | src/ghost-text-editing.ts:149-155 | it handles the key exactly when not loading and the suggestion is non-empty; then it applies, and otherwise nothing changes |
| EditingSpec.Click | src/ghost-text-editing.ts:262-268 | a click on a ghost applies, with no guard; any other click changes nothing |
| EditingSpec.AcceptAfterClearCommitsOldText | src/ghost-text-editing.ts:270-275 | after a clear, Tab still accepts and commits the text the cleared suggestion held |
| EditingSpec.StaleSuggestionReturns | src/ghost-text-editing.ts:185-197 | after a clear, typing the kept suggestion's first letter narrows it and shows its ghost again |
| EditingSpec.InsertedContents | src/ghost-text-editing.ts:233-248 | changes that are not insertions contribute no items |
| EditingSpec.InsertedContentsOfInsert | src/ghost-text-editing.ts:238-244 | a single insertion contributes exactly its items |
| EditingSpec.InsertedItemsAppear | src/ghost-text-editing.ts:237-247 | every insertion's items appear in the result, after the items of the changes before it and before those of the changes after it |
| EditingSpec.InsertedContentsConcat | src/ghost-text-editing.ts:237-247 | the items of two runs of changes are the items of the first run followed by those of the second |
| EditingSpec.MatchIsOneLetter | src/ghost-text-editing.ts:191-195 | an inserted item matches exactly when the suggestion's first letter is a single UTF-16 code unit and the item is a one-character text proxy equal to it, ignoring ASCII case |
| EditingSpec.MatchesFirstLetter | src/ghost-text-editing.ts:191-195 | with the ASCII-only `ToLower`, only a one-character text proxy can match, and only a suggestion whose first letter is a single code unit |
| EditingSpec.Narrows | src/ghost-text-editing.ts:189-199 | narrowing needs a non-empty insertion and a truthy suggestion whose first letter is a single UTF-16 code unit, so `substring(1)` drops exactly that letter |
| EditingSpec.AstralFirstLetterNeverNarrows | src/ghost-text-editing.ts:191-194 | a suggestion starting outside the Basic Multilingual Plane is never narrowed, whatever is inserted |
| EditingSpec.EmptySuggestionNeverNarrows | src/ghost-text-editing.ts:189 | an empty or undefined suggestion never narrows |
| EditingSpec.InsertContent | src/ghost-text-editing.ts:213-224 | a narrowing insertion drops the suggestion's first letter and changes nothing else but the ghost; any other insertion aborts every controller and arms the timer, leaving the document and suggestion alone |
| EditingSpec.TypingConsumesSuggestion | src/ghost-text-editing.ts:185-224 | typing the suggestion's next letters one at a time, ignoring ASCII case, when each is in the Basic Multilingual Plane, consumes exactly those letters without touching the fetch, the timer or the loading flag |
| EditingSpec.DeleteContent | src/ghost-text-editing.ts:226-231 | clears exactly when the differ reports changes |
| EditingSpec.SelectionChange | src/ghost-text-editing.ts:250-260 | clears exactly on a direct change to a collapsed selection with no ghost right after the focus; otherwise nothing changes |
| EditingSpec.SelectionBeforeGhostKeepsSuggestion | src/ghost-text-editing.ts:250-260 | a collapsed cursor right before the ghost keeps everything |
| EditingSpec.NodeAfterIsGhostIff | src/ghost-text-editing.ts:252-256 | with at most one ghost, the node after the focus is a ghost exactly when the document's first ghost sits at the focus |
| EditingSpec.SelectionChangeEffect | src/ghost-text-editing.ts:250-260 | a selection change clears or changes nothing; a direct collapsed move with no ghost shown always clears |
| EditingSpec.Launch | src/ghost-text-editing.ts:172-177 | skipped while loading; otherwise shows the loading ghost and starts a fresh controller; with a fetcher the fetch is awaited, without one the error is rethrown and loading stays on |
| EditingSpec.NoFetcherStaysLoading | src/ghost-text-editing.ts:172-183 | without a fetcher the first launch rethrows and every later one is skipped |
| EditingSpec.TimerFire | src/ghost-text-editing.ts:33-36 | the timer slot ends empty; a pending call launches, otherwise nothing changes |
| EditingSpec.MismatchRefetches | src/ghost-text-editing.ts:213-224 | when no fetch is loading, a non-narrowing insertion aborts every fetch; the next firing starts exactly one new fetch and a second firing does nothing |
| EditingSpec.MismatchWhileLoadingSticks | src/ghost-text-editing.ts:213-224 | while loading, a non-narrowing insertion aborts the awaited fetch; its reply, of any kind, is swallowed as cancelled with loading still on, and the re-armed timer then fires into the loading guard and fetches nothing |
| EditingSpec.PlainResult | src/ghost-text-editing.ts:302-315 | a text reply resolves with its text; an unsupported or failed reply resolves with `undefined` |
| EditingSpec.StreamGhost | src/ghost-text-editing.ts:325-344 | the loop always leaves a ghost |
| EditingSpec.AfterStream | src/ghost-text-editing.ts:318-345 | the suggestion and loading flag are the loop's outcome, the ghost at the cursor shows how the last setter left it, committed content kept, and an abort marks the fetch aborted |
| EditingSpec.Finish | src/ghost-text-editing.ts:172-183 | a rejection leaves the state alone and is swallowed or rethrown; a resolution stores and shows the value and lowers the loading flag |
| EditingSpec.Settle | src/ghost-text-editing.ts:294-316 | the fetch stops being awaited, the timer is untouched and committed content is kept |
| EditingSpec.SettlePlain | src/ghost-text-editing.ts:302-315 | a non-stream reply is stored and shown exactly when its fetch is live; otherwise the cancellation is swallowed and nothing changes |
| EditingSpec.SettleStream | src/ghost-text-editing.ts:318-345 | a stream reply is stored exactly when no abort came, as the concatenation of its chunks; otherwise the cancellation is swallowed and the loop's outcome stays |
| EditingSpec.SupersededReplyIgnored | src/ghost-text-editing.ts:364-379 | after a newer launch, an older fetch's reply changes nothing but the awaited set |
| EditingSpec.LatestReplyShown | src/ghost-text-editing.ts:172-183 | a launch followed by its own text reply shows that text and ends loading |
| EditingSpec.AbortedStreamStaysLoading | src/ghost-text-editing.ts:318-345 | a stream of an aborted fetch empties the suggestion, leaves loading on, and blocks the next launch |
| EditingSpec.StreamShowsConcatenation | src/ghost-text-editing.ts:318-345 | a stream nobody aborts shows the concatenation of its chunks |
| EditingSpec.Keystroke | src/ghost-text-editing.ts:130-155 | accept runs first; insert runs only when accept did not handle the key; an unbound key changes nothing |
| EditingSpec.DefaultBindings | src/ghost-text-editing.ts:130-155 | with the defaults, Tab is handled exactly when a suggestion is ready, and Ctrl+Alt+E always launches |
| Editing.GhostTextEditing.constructor | src/ghost-text-editing.ts:31-56 | empty suggestion, not loading, no timer, no controller; bindings merged from the configuration |
| Editing.GhostTextEditing.FetchedText | src/ghost-text-editing.ts:286-288 | the getter reads the `ghostText` command's value |
| Editing.GhostTextEditing.IsLoading | src/ghost-text-editing.ts:277-280 | the getter reads the `ghostTextLoading` command's value, already a boolean |
| Editing.GhostTextEditing.SetFetchedText | src/ghost-text-editing.ts:290-292 | makes the `WithText` transition |
| Editing.GhostTextEditing.SetIsLoading | src/ghost-text-editing.ts:282-284 | makes the `WithLoading` transition |
| Editing.GhostTextEditing.ClearGhostText | src/ghost-text-editing.ts:270-275 | makes the `Clear` transition |
| Editing.GhostTextEditing.ApplyGhostText | src/ghost-text-editing.ts:204-211 | makes the `Apply` transition |
| Editing.GhostTextEditing.HandleAcceptKeystroke | src/ghost-text-editing.ts:149-155 | makes the `AcceptKeystroke` transition and reports whether it called `cancel()` |
| Editing.GhostTextEditing.HandleGhostTextClick | src/ghost-text-editing.ts:262-268 | makes the `Click` transition |
| Editing.GhostTextEditing.RemoveGhostLetter | src/ghost-text-editing.ts:185-202 | returns whether the inserted items narrow the suggestion (a first letter of one UTF-16 code unit matched); if so, the suggestion loses that letter, and otherwise nothing changes |
| Editing.GhostTextEditing.HandleInsertContent | src/ghost-text-editing.ts:213-224 | makes the `InsertContent` transition on the items of the differ's insertions |
| Editing.GhostTextEditing.HandleDeleteContent | src/ghost-text-editing.ts:226-231 | makes the `DeleteContent` transition |
| Editing.GhostTextEditing.HandleSelectionChange | src/ghost-text-editing.ts:250-260 | makes the `SelectionChange` transition |
| Editing.GhostTextEditing.InsertGhostText | src/ghost-text-editing.ts:172-177 | makes the `Launch` transition |
| Editing.GhostTextEditing.HandleInsertKeystroke | src/ghost-text-editing.ts:143-147 | makes the `Launch` transition |
| Editing.GhostTextEditing.OnKeystroke | src/ghost-text-editing.ts:130-141 | makes the `Keystroke` transition for the merged bindings |
| Editing.GhostTextEditing.FireDebounceTimer | src/ghost-text-editing.ts:33-36 | makes the `TimerFire` transition |
| Editing.GhostTextEditing.ObserveSignal | src/ghost-text-editing.ts:328 | reads aborted exactly when the fetch was aborted before or the abort has arrived; an arriving abort aborts the current controller |
| Editing.GhostTextEditing.ReplaceShownText | src/ghost-text-editing.ts:329-340 | the suggestion becomes the value and only the ghost at the cursor changes |
| Editing.GhostTextEditing.AbsorbRead | src/ghost-text-editing.ts:335-341 | loading drops while the suggestion is empty; a chunk is appended to the suggestion; only the ghost at the cursor changes |
| Editing.GhostTextEditing.StartStream | src/ghost-text-editing.ts:325-326 | an empty suggestion, loading on, the loading ghost at the cursor |
| Editing.GhostTextEditing.ReadStep | src/ghost-text-editing.ts:328-341 | one pass: it stops exactly when the signal reads aborted (emptying the suggestion, keeping loading, aborting nothing new unless this controller was live), otherwise it absorbs one read, reports `done` exactly at the end of the chunks and extends the suggestion by that chunk |
| Editing.GhostTextEditing.ReadStream | src/ghost-text-editing.ts:327-342 | the suggestion and loading flag end as `Drain` says; only the ghost at the cursor changes; an abort aborts the current controller |
| Editing.GhostTextEditing.ProcessStreamContent | src/ghost-text-editing.ts:318-345 | makes the `AfterStream` transition and returns the final suggestion |
| Editing.GhostTextEditing.OnFetchSettled | src/ghost-text-editing.ts:294-316 | makes the `Settle` transition and returns the same outcome |

## Left out

- Timers, promises, `AbortController`, `ReadableStream` and the content fetcher are not run. They are events and parameters: a settled reply, a timer firing, the read at which an abort is first seen.
- The debounce delay (`debounceDelay`) is not modelled; only the order of events matters.
- While a stream is read, no other handler runs. Other events during a stream are represented only by the abort they may cause. Errors thrown by `reader.read()` are not modelled.
- `createGhostTextView`, the converters, the schema registration and the loading icon are rendering, not state. They are left out.
- Logging (`console.warn`, `console.error`) is left out. `handleFetchError` logs, and then `fetchContent` resolves with `undefined` (`PlainResult`).
- The user's own edits are made by the host; the handlers receive the differ's changes. Undo, blocks and paragraphs are not modelled, and attribute values are reduced to the names of the attributes set.
- The command's `isEnabled` flag, `enqueueChange` batching (changes run in call order) and `isUndoable` are not modelled.
- The plugin wrappers and the toolbar button (`src/ghost-text.ts`, `src/ghosttext.ts`, `src/ghosttextplugin.ts`, `src/augmentation.ts`) and the sample are not part of this model.
- Strings are sequences of Unicode characters, not of UTF-16 code units. Only `ghostText[0]` and `substring(1)`, the places the plugin indexes a string by code unit, are modelled unit by unit (`InBmp`). Lone surrogates are not represented.
- EditingSpec.ToLower: maps only ASCII letters, because the full Unicode case mapping of `toLowerCase` is not modelled. As a consequence, `MatchesFirstLetter`, `MatchIsOneLetter` and `TypingConsumesSuggestion` ignore only ASCII case. In the source, `"é"` also matches a suggestion starting with `"É"`, and the two-unit text `"i\u0307"` matches one starting with `"İ"`, whose lower case is two units long.
- EditingSpec.Keystroke: compares key strings for exact equality; the parsing and platform normalisation of `keystrokes.set` are not modelled.
- Editing.GhostTextEditing.constructor: it requires a root, a selection and at most one ghost, and `StateInv` keeps these afterwards. A document without a root or a selection is modelled by the commands, not by the plugin.

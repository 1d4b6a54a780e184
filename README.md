# Number Logger: the log book of the App component

This project models the state of the `App` component of the number logger
(`src/App.js`): a list of named logs, each with a unit label and a list of
time-stamped numbers, the index of the current log, and the text of the number
input. It covers how that state is loaded when the component is built (restored
from storage with its times rehydrated and a missing index migrated, or a fixed
default), and the four handlers that change it: selecting a log, adding a log,
deleting the current log, and adding the typed number to the current log.

- `wrappers.dfy`, module `Wrappers`: `Option`.
- `logbook.dfy`, module `LogBook`: the data model (`Entry`, `Log`, `AppState`)
  and every handler as a pure transition from the old state to the new one,
  with lemmas about them (frames, index validity, entry counts, undo).
- `loading.dfy`, module `Loading`: the saved form of the state, the rehydration
  of times (the nested loop of the constructor, as a method proved against a
  function), the index migration, the load decision, the saved form written
  after every change, and the save/load round trip.
- `app.dfy`, module `NumberLogger`: class `App` with the component's three
  state fields; its constructor and handlers update the fields in place and
  are proved to produce exactly the state the `LogBook`/`Loading` functions
  compute.

Inputs the component takes from its surroundings are parameters:
`parse: string -> Option<Value>` for `parseFloat` (None for NaN), `now` for
`new Date()`, `toDate` for `new Date(text)`, `toIso` for the ISO-8601 form a
`Date` takes in JSON, `decode` for `JSON.parse` together with the accesses
that throw on a malformed tree, `item` for what storage holds under `"state"`,
`confirmed` for the answer to `window.confirm`, and `newIndex` for the option
chosen in the log selector.

Adding a number or deleting a log when no log is current does nothing.
Neither guard checks for a negative index, so `0 <= currentLogIndex` is a
precondition of deleting and of adding a number that parses; the render hides
or disables those controls when there is no current log. The component has no
rename, import or export.

## Model

| member | source | states |
|---|---|---|
| LogBook.SetNewValue | src/App.js:83-85 | the input text is stored verbatim; logs and current index are untouched |
| LogBook.AddLog | src/App.js:98-107 | one more log; the earlier logs are unchanged; the new last log is "unnamed" with units "#" and no entries; it becomes current, so the index is valid |
| LogBook.SelectLog | src/App.js:87-96 | an existing index is selected with the logs and input untouched; any other choice is exactly AddLog; the logs stay the same iff the index existed; afterwards there is a current log |
| LogBook.DeleteCurrentLog | src/App.js:109-123 | no change iff the index is out of range or confirmation is declined; otherwise the logs before the index are kept, the ones after shift down by one, the index becomes min(old index, old length - 2), the input is kept and the state is consistent |
| LogBook.AddNewValue | src/App.js:125-150 | no change (input kept) iff the text does not parse or there is no current log; otherwise the current log gains exactly the parsed value stamped `now` at its end, keeps name and units, other logs and the index are unchanged and the input is cleared |
| LogBook.DefaultStateShape | src/App.js:50-67 | the default state is one empty log "initial log" with units "#", index 0, empty input |
| LogBook.ConsistentHasCurrentLog | src/App.js:165-205 | in a consistent state a current log exists exactly when some log does, so Delete and Add, shown only then, get a non-negative index |
| LogBook.HandlersPreserveConsistency | src/App.js:83-150 | every handler keeps "index valid, or -1 with no logs" |
| LogBook.AddNewValueAddsOneEntry | src/App.js:135-149 | a successful Add increases the number of entries of the whole book by exactly one |
| LogBook.TypedNumberIsLogged | src/App.js:83-150 | typing a number and pressing Add appends that number, stamped `now`, as the last entry of the current log and clears the input |
| LogBook.TypedNonNumberIsIgnored | src/App.js:125-131 | typing text that does not parse and pressing Add leaves the state as typing left it |
| LogBook.DeleteRemovesCurrentLog | src/App.js:118-122 | re-inserting the deleted log at its index gives the old list |
| LogBook.DeleteKeepsOtherLogs | src/App.js:119-122 | as a multiset, the logs lose exactly the current log and keep every other one |
| LogBook.DeleteDropsCurrentEntries | src/App.js:119-122 | deletion loses exactly the entries of the deleted log |
| LogBook.DeleteUndoesAddLog | src/App.js:98-122 | deleting a just-added log restores the old logs and selects the old last log |
| LogBook.DeleteMiddleOfThree | src/App.js:117-122 | [A,B,C] at 1 becomes [A,C] at 1 |
| LogBook.DeleteOnlyLog | src/App.js:117-122 | [A] at 0 becomes [] at -1 |
| Loading.MapEntryTimes | src/App.js:30-34 | same number of entries, same order, each value kept, each time rewritten |
| Loading.MapLogTimes | src/App.js:33-35 | same logs in the same order with names and units kept and only entry times rewritten |
| Loading.RemapTimes | src/App.js:29-35 | the nested loop over logs and entries yields exactly MapLogTimes of the saved logs |
| Loading.MigrateIndex | src/App.js:36-37 | a missing index becomes 0, a present one is kept |
| Loading.Restore | src/App.js:28-37 | the restored state keeps the input, migrates the index and rehydrates the times of the saved logs |
| Loading.Load | src/App.js:24-67 | nothing stored, an empty item or a failed decode gives the default state; otherwise the saved input, the migrated index, and the saved logs in order with only their times rehydrated, so as many logs and entries as were saved |
| Loading.Persisted | src/App.js:69-81 | the tree saved after a change holds the input, `Some(index)` and the logs with their times in text form |
| Loading.RemapKeepsEntryCount | src/App.js:33-35 | rewriting times keeps the total number of entries |
| Loading.RestoreOnlyRewritesTimes | src/App.js:29-35 | with times erased, the loaded logs equal the saved logs |
| Loading.MissingIndexLoadsAsZero | src/App.js:36-37 | a saved state without an index loads with index 0 |
| Loading.PersistRestoreRoundTrip | src/App.js:24-81 | restoring what was saved gives the same state back when times survive their text form |
| NumberLogger.App.constructor | src/App.js:24-67 | the fields hold exactly Load of the stored item |
| NumberLogger.App.HandleNewValueChange | src/App.js:83-85 | the new state is SetNewValue of the old one |
| NumberLogger.App.HandleLogChange | src/App.js:87-96 | the new state is SelectLog of the old one |
| NumberLogger.App.AddLog | src/App.js:98-107 | the new state is AddLog of the old one |
| NumberLogger.App.DeleteCurrentLog | src/App.js:109-123 | the new state is DeleteCurrentLog of the old one, for a non-negative index |
| NumberLogger.App.AddNewValue | src/App.js:125-150 | the new state is AddNewValue of the old one |

## Left out

- Rendering (`render`, JSX, the selector's options and the table): presentation only; its one relevant fact, that Delete is disabled (or hidden, when no log exists) and the number input hidden when there is no current log, is the precondition `0 <= currentLogIndex` of deletion and of a successful Add.
- Method binding and the asynchronous, batched `setState` of React: each handler's update is applied at once.
- Storage and JSON: reading and writing storage, `JSON.parse`/`JSON.stringify` and the logging of their errors are foreign calls; reading is the `item` and `decode` parameters, writing is described by `Persisted` but not performed.
- `parseFloat`, NaN and the numeric value itself: floating point; a value is an uninterpreted `real` and parsing is the `parse` parameter. The `console.warn` that `addNewValue` issues for a NaN input is console output and is left out.
- `new Date()`, `new Date(text)`, the ISO-8601 text form and locale formatting: clock and foreign calls, given as the `now`, `toDate` and `toIso` parameters; an invalid date is not distinguished.
- `window.confirm`: user interaction, given as the `confirmed` parameter.
- Loading.MigrateIndex: does not model the 32-bit truncation and the coercion of non-numeric values to 0 done by `|= 0`; a saved index is an integer or absent.
- Loading.RemapTimes: the constructor overwrites `entry.time` in the parsed objects in place; the model builds new logs, since the time changes type (text to date) and no other reference to those objects exists.
- Loading.Load: a decoded tree of an unexpected shape that does not throw (for example a `newValue` that is not a string) is not modelled; `decode` either yields a well-typed saved state or fails.

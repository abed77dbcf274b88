# Reminder triage on the home screen

This project models the reminder-triage logic of a small mobile reminder app. The
home screen holds two ordered lists of suggested reminders: `suggestions` (proposed by
a suggestion source) and `upcoming` (accepted by the user). Beside them sits a
`loading` flag. The user can do four things:

- **Accept** a suggestion. It is appended to `upcoming`, the list is re-sorted by due
  time with JavaScript's stable `Array.prototype.sort`, and the result is handed to
  on-device storage. Every suggestion with the same id is then filtered out.
- **Dismiss** a suggestion. Every suggestion with that id is filtered out.
- **Refresh** the suggestions. The loading flag goes up, the source is awaited, and on
  success the suggestions are replaced wholesale. If the source rejects, they are kept
  and an alert is shown. The flag comes down either way.
- **Restore** at startup. A saved upcoming list, if storage has one, replaces the
  empty initial list.

The suggestion source is a demo stub. Given the clock reading `now`, it returns three
fixed reminders: ids `demo-<now+1>`, `demo-<now+2>` and `demo-<now+3>`, due 24 h, 2 h
and 6 h later, with priorities high, medium and low. It rejects in one case. Each due
time is written as an ISO timestamp, and a JavaScript `Date` holds only 8.64e15 ms
either side of the epoch (ECMA-262, "Time Values and Time Range"). So when `now`
+ 24 h lies past that range, or `now` + 2 h lies before it, `toISOString` throws a
RangeError. The promise then rejects, and the refresh takes its alert branch.

Files:

- `decimal.dfy` (module `Decimal`): the decimal text an integer gets in a JavaScript
  template literal, and the proof that it is injective.
- `reminder_service.dfy` (module `ReminderService`): the `Reminder` record and the
  demo source as a pure function of `now`, together with its Date-range rejection.
- `reminder_lists.dfy` (module `ReminderLists`): the pure list computations of the
  handlers. These are the stable sort by due time, its stability and uniqueness,
  the accept-time insertion, and the id filter with its order-preservation lemmas.
- `home_screen.dfy` (module `HomeScreen`): class `Store`, with one field per piece
  of screen state and one method per handler. The ghost field `stored` is the list
  last handed to storage. Two client methods check what the contracts let a caller
  conclude. `TriageScenario` runs refresh, accept and dismiss.
  `RestoreAfterAcceptScenario` runs a restore that settles after an accept.

Each handler is one atomic step. `when` is the due instant in integer milliseconds,
and the clock value `now` is a parameter. The refresh is split into `BeginLoading`
and `FinishLoading` so that other handlers can run while `loading` is up.
`LoadSuggestions` is the same refresh with nothing in between.

What the handlers do not enforce, the model does not assume:

- Accept does not check that the item is among the suggestions.
- Accept does not de-duplicate ids in `upcoming`.
- Undo, snooze, edit, removal from upcoming and notification scheduling do not exist
  in the code, so they are not modelled.
- `upcoming` is sorted only on accept; a restored list is installed as read. So
  `Accept` guarantees sortedness, and `RestoreUpcoming` does not.
- Nothing keeps an id out of both lists at once. `DemoBatchesShareId` shows that two
  refreshes whose clock readings are less than 3 ms apart produce overlapping ids, so
  an accepted id can come back as a suggestion.

## Model

| member | source | states |
|---|---|---|
| `Decimal.NatToString` | app/src/services/reminderService.ts:20-32 | the decimal text of a natural number (as `${n}` writes it) is non-empty, all digits, one digit long exactly below ten, and has no leading zero |
| `Decimal.IntToString` | app/src/services/reminderService.ts:20-32 | the decimal text of any integer is non-empty and starts with '-' exactly when the number is negative |
| `Decimal.NatToStringInjective` | app/src/services/reminderService.ts:20-32 | two natural numbers with the same decimal text are equal |
| `Decimal.IntToStringInjective` | app/src/services/reminderService.ts:20-32 | two integers with the same decimal text (as `${n}` writes it) are equal, so `demo-` ids built from different numbers differ |
| `ReminderService.GenerateRemindersDemo` | app/src/services/reminderService.ts:13-38 | exactly three reminders; all due strictly after `now`, at +24 h, +2 h and +6 h; the list is not in time order (the 24 h entry comes first); priorities high, medium, low; the i-th id is `demo-` followed by `now+i+1` |
| `ReminderService.FetchRemindersDemo` | app/src/services/reminderService.ts:17-38 | the awaited source resolves exactly when `now` - 2 h .. `now` + 24 h fits in the Date range (all three due times can be written as ISO timestamps), and then yields exactly the generated batch; otherwise it rejects |
| `ReminderService.DemoIdInjective` | app/src/services/reminderService.ts:20-32 | equal demo ids come from equal numbers |
| `ReminderService.DemoIdsDistinct` | app/src/services/reminderService.ts:20-32 | the three ids of one batch are pairwise distinct |
| `ReminderService.DemoIdsDiffer` | app/src/services/reminderService.ts:20-32 | demo ids built from different numbers differ |
| `ReminderService.DemoBatchesApart` | app/src/services/reminderService.ts:17-32 | batches fetched at clock readings 3 ms or more apart share no id |
| `ReminderService.DemoBatchesClose` | app/src/services/reminderService.ts:17-32 | batches fetched at clock readings less than 3 ms apart share an id, at the returned positions |
| `ReminderService.DemoBatchesShareId` | app/src/services/reminderService.ts:17-32 | two batches fetched at clock readings `a` and `b` share an id if and only if the readings are less than 3 ms apart |
| `ReminderLists.SortByWhen` | app/src/screens/HomeScreen.tsx:64 | the sort result is ordered non-decreasingly by due time and is a permutation (same multiset) of its input |
| `ReminderLists.InsertByWhen` | app/src/screens/HomeScreen.tsx:64 | one insertion step of the sort adds exactly the new entry to the multiset of the list |
| `ReminderLists.InsertByWhenSorted` | app/src/screens/HomeScreen.tsx:64 | inserting into a time-ordered list keeps it time-ordered |
| `ReminderLists.InsertByWhenPlacement` | app/src/screens/HomeScreen.tsx:64 | in a time-ordered list the entry goes right after the last entry due no later than it, and nothing else moves |
| `ReminderLists.SortByWhenStable` | app/src/screens/HomeScreen.tsx:64 | stability: for every due time, the entries due then appear in the same relative order before and after the sort |
| `ReminderLists.StableSortUnique` | app/src/screens/HomeScreen.tsx:64 | two time-ordered lists with the same entries, in the same order, at every due time are equal, so any stable sort by time (as ECMAScript 2019 requires of `Array.prototype.sort`) gives exactly `SortByWhen`'s result |
| `ReminderLists.SortByWhenOfSorted` | app/src/screens/HomeScreen.tsx:64 | sorting a list already in time order leaves it unchanged |
| `ReminderLists.AcceptedUpcoming` | app/src/screens/HomeScreen.tsx:63-66 | the new upcoming list is time-ordered, is a permutation of the old list plus the item, and is exactly one longer, even when the item's id is already present |
| `ReminderLists.AcceptedUpcomingAtTime` | app/src/screens/HomeScreen.tsx:64 | the accepted item lands after every existing entry due at the same time; entries due at other times keep their relative order |
| `ReminderLists.AcceptedUpcomingIntoSorted` | app/src/screens/HomeScreen.tsx:64 | accepting into a time-ordered list inserts the item after the last entry due no later than it and leaves all other entries in place |
| `ReminderLists.RemoveId` | app/src/screens/HomeScreen.tsx:70 | no survivor carries the id, every survivor comes from the input, and the result is no longer than the input |
| `ReminderLists.RemoveIdCount` | app/src/screens/HomeScreen.tsx:70 | every entry with another id survives exactly as often as it occurred; entries with the id are gone |
| `ReminderLists.RemoveIdAppend` | app/src/screens/HomeScreen.tsx:77 | the filter distributes over concatenation, so survivors keep their relative order |
| `ReminderLists.RemoveIdAbsent` | app/src/screens/HomeScreen.tsx:70 | a list that does not contain the id is returned unchanged |
| `ReminderLists.RemoveIdIdempotent` | app/src/screens/HomeScreen.tsx:76-78 | dismissing the same id twice equals dismissing it once |
| `ReminderLists.RemoveIdCommutes` | app/src/screens/HomeScreen.tsx:76-78 | dismissing two ids gives the same list in either order |
| `HomeScreen.Store.constructor` | app/src/screens/HomeScreen.tsx:21-23 | the screen mounts with loading off, both lists empty and nothing stored |
| `HomeScreen.Store.RestoreUpcoming` | app/src/screens/HomeScreen.tsx:29-36 | a saved list replaces `upcoming` wholesale; without one, `upcoming` is unchanged; nothing else changes |
| `HomeScreen.Store.PersistUpcoming` | app/src/screens/HomeScreen.tsx:52-59 | the stored snapshot becomes exactly the given list; the screen state is unchanged |
| `HomeScreen.Store.Accept` | app/src/screens/HomeScreen.tsx:61-74 | `upcoming` becomes the time-ordered permutation of the old list plus the item; the list handed to storage is exactly the new `upcoming`; `suggestions` is the old list with every entry of that id removed; `loading` is unchanged |
| `HomeScreen.Store.Dismiss` | app/src/screens/HomeScreen.tsx:76-78 | `suggestions` loses every entry with the id and keeps the rest in order; `upcoming`, the stored snapshot and `loading` are unchanged |
| `HomeScreen.Store.BeginLoading` | app/src/screens/HomeScreen.tsx:40-41 | the loading flag goes up; both lists and the stored snapshot are unchanged |
| `HomeScreen.Store.FinishLoading` | app/src/screens/HomeScreen.tsx:42-49 | an alert is raised exactly when the source rejects (`now` outside the Date range the due times need); otherwise `suggestions` becomes exactly the generated batch, and on the alert it is unchanged; `loading` ends false; `upcoming` and the stored snapshot are untouched |
| `HomeScreen.Store.LoadSuggestions` | app/src/screens/HomeScreen.tsx:40-50 | the whole refresh: the same outcome as `FinishLoading` after `BeginLoading` |
| `HomeScreen.TriageLists` | app/src/screens/HomeScreen.tsx:70-77 | with three suggestions of distinct ids, accepting the first and then dismissing the second leaves exactly the third |

## Left out

- Rendering, styles, list and button wiring, and the `Alert` pop-ups (app/src/screens/HomeScreen.tsx:80-256). The accept alert's text is not modelled. The refresh failure alert is modelled only as the `alerted` result.
- AsyncStorage and JSON (de)serialisation. Persisting is the ghost snapshot `stored`. Restoring takes the already-parsed saved list as an optional input: `None` stands for no value, an empty value, or a read or parse failure. A stored value that parses to something other than a list is not modelled.
- Date parsing and formatting. `when` is an integer millisecond timestamp, so invalid dates and the NaN results they give the comparator are not modelled.
- JavaScript numbers are floating point. `now` and the due times are unbounded integers, so precision loss above 2^53 and exponent notation in `${n}` for magnitudes of 10^21 and above are not modelled.
- The 650 ms delay and `Date.now()` in the demo source. The clock reading is the parameter `now`.
- `FetchRemindersDemo`: the only rejection modelled is the RangeError from an out-of-range `Date`. Failures of a real (non-demo) suggestion source are not modelled.
- Asynchronous interleaving of state updates. Each handler is one atomic step, and so is each half of the refresh. Orderings of those steps are modelled: `RestoreAfterAcceptScenario` shows a restore that settles after an accept installing the saved list and dropping the accepted item, while storage still holds the list with it. An updater run twice by the UI framework (which would persist twice) is not modelled.
- app/src/constants/theme.ts: colour and font constants only, with no logic.

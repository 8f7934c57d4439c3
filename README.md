# Aquarium planner: the room-document cache

The planner is a browser front-end for a shared calendar. Each day of the
calendar has a to-do list, a mood and a diary entry. There is also a "vision
board" of pictures. All clients connected to the same room share one remote
document. Each client keeps a copy of it in memory, `allData` in
`script.js`.

The cache is changed in two ways:

- **Snapshot replacement.** Each remote notification replaces the whole cache.
  If the room has no document yet, the cache becomes the empty document
  `{ calendar: {}, vision: [] }`.
- **User actions.** Each action changes the cache in place and then asks for
  the whole cache to be written back (`saveToCloud`). The actions are: add,
  toggle and delete a task; set the mood; set the diary; clear a day; add and
  delete a picture.

The renderers read the cache through a few fixed rules:

- a missing day reads as the empty record `{ tasks: [], mood: null, diary: "" }`;
- a missing vision list reads as `[]`;
- a calendar cell shows the mood glyph if the day has a mood, otherwise the
  "has-task" mark if the day has any tasks, otherwise nothing.

The project has these files:

- `model.dfy` (`PlannerModel`): the document's datatypes and the read-side
  lookups. `RemoveAt` models `Array.prototype.splice(i, 1)`.
- `text.dfy` (`JsText`): `String.prototype.trim`, over ECMAScript's
  white-space and line-terminator characters. The add-task guard uses it.
- `actions.dfy` (`PlannerActions`): each handler as a function from the old
  document to the new one. Each function's contract says what changes and
  that nothing else does. Lemmas relate the actions to each other: toggling
  twice restores the document, a delete undoes an add, `ensureDateStructure`
  is idempotent and invisible to readers.
- `view.dfy` (`CalendarView`): `getMoodEmoji`, the cell-marker rule, and the
  loop of `renderCalendar` over the days of a month.
- `cache.dfy` (`DocumentCache`): the class `Planner`. Its fields are the
  cache (`calendar`, `vision`) and the log of requested writes (`writes`).
  It has one method per handler. Each method changes its fields step by step,
  as the source does. Each is proved to reach exactly the document its
  `PlannerActions` function describes, and to request a write exactly when
  the source calls `saveToCloud`.
- `scenarios.dfy` (`Scenarios`): worked examples. One adds "Buy food" to an
  empty room. One deletes the middle of three pictures. One runs two actions,
  then the echo of the last write.

Modelling choices:

- **Date keys, dialogs and inputs are parameters.** The selected date's key
  is an opaque string parameter. The answer to a `confirm` dialog is a
  boolean parameter. The input fields' values are string parameters.
- **Both top-level fields are optional.** The first cache is `{}`, and a
  remote document may lack `calendar` or `vision`. The source tests for both
  (`if (!allData.calendar)`, `allData.calendar?.[key]`, `allData.vision || []`).
- **A mood is `null` or a string.** The marker tests it for truthiness, so an
  empty-string mood counts as no mood there.
- **Deletions follow `splice`.** Deleting at an index past the end changes
  nothing.
- **Two preconditions come from the page.** `toggleTask` needs the selected
  day to exist and the index to be a position in its list. `deleteTask` needs
  the day to exist. Otherwise the source throws a `TypeError`. The page only
  calls these handlers with indices from the list it just drew, so these are
  stated as preconditions.
- **A confirmed `deleteVision` needs the vision list to exist.** Its indices
  come from a drawn board.

Three behaviours of the code that are easy to misread, modelled as written:

- **Vision URL check.** The code rejects only an empty URL. A URL made of
  spaces is added, because `url` is never trimmed.
- **Which actions create a day.** A day record is created by add-task,
  set-mood and set-diary, and never by toggle or delete.
- **Clearing with no calendar.** A confirmed clear requests a write even when
  the cache has no calendar.

## Model

| member | source | states |
|---|---|---|
| `JsText.TrimStart` | script.js:174 | the result is a suffix of the input, does not start with white space, and everything cut off is white space |
| `JsText.TrimEnd` | script.js:174 | the result is a prefix of the input, does not end with white space, and everything cut off is white space |
| `JsText.TrimEmptyIffBlank` | script.js:174 | `text.trim()` is empty exactly when every character of the text is white space |
| `JsText.Trim` | script.js:174 | `input.value.trim()`: the result is no longer than the input and neither starts nor ends with white space |
| `JsText.TrimIsSlice` | script.js:174 | `trim` returns a contiguous slice of its input; everything before and after the slice is white space, and the slice neither starts nor ends with white space |
| `PlannerModel.Calendar` | script.js:118 | a missing calendar reads as the empty map, a present one as itself |
| `PlannerModel.DayAt` | script.js:118 | `allData.calendar?.[key]` is present exactly when the key is in the calendar, and is then its record |
| `PlannerModel.DayOrEmpty` | script.js:140 | the day panel shows the stored record for a present key and `{tasks: [], mood: null, diary: ""}` for a missing one |
| `PlannerModel.VisionItems` | script.js:241 | a missing vision list reads as `[]` |
| `PlannerModel.RemoveAt` | script.js:191 | `splice(i, 1)`: when `i` is in range, length drops by one, elements before `i` stay, elements after it shift down by one, and the multiset loses exactly `s[i]`; otherwise nothing changes |
| `PlannerModel.RemoveAtKeepsOrder` | script.js:233 | re-inserting the removed element at `i` gives back the original list, so the others keep their relative order |
| `PlannerActions.EnsureDay` | script.js:167-170 | afterwards the key is present; an existing record is kept unchanged and the whole document is unchanged; a missing key gets the empty record; no other day and not the vision list changes |
| `PlannerActions.EnsureDayIdempotent` | script.js:167-170 | calling `ensureDateStructure` twice is the same as once |
| `PlannerActions.EnsureDayInvisible` | script.js:167-170 | creating the record changes what no reader sees: every day reads the same and the vision list is the same |
| `PlannerActions.AddTask` | script.js:172-181 | blank text after trimming leaves the document as it was; otherwise the day's tasks become the old tasks plus `{text, completed: false}` at the end, with mood, diary, other days and the vision list unchanged |
| `PlannerActions.ToggleTask` | script.js:183-187 | only `completed` of task `idx` flips; its text, the other tasks, mood, diary, other days and the vision list are unchanged |
| `PlannerActions.ToggleTwice` | script.js:185 | toggling the same task twice restores the original document |
| `PlannerActions.DeleteTask` | script.js:189-193 | for `idx` in range, the tasks lose exactly element `idx`: length drops by one, the prefix before it and the suffix after it are kept in order; past the end nothing changes; mood, diary, other days and vision unchanged |
| `PlannerActions.DeleteUndoesAdd` | script.js:172-193 | deleting the task just added at the end restores the day's previous task list |
| `PlannerActions.SetMood` | script.js:195-200 | the mood becomes `null` if it already equals the chosen mood and the chosen mood otherwise; tasks, diary, other days and vision unchanged |
| `PlannerActions.SetMoodTwice` | script.js:198 | choosing the same mood twice restores the day's record when its mood was unset or that mood |
| `PlannerActions.SetMoodReplaces` | script.js:198 | choosing mood `a` then a different mood `b` leaves mood `b` |
| `PlannerActions.SetDiary` | script.js:202-207 | the day's diary becomes the text; tasks, mood, other days and vision unchanged |
| `PlannerActions.ClearDay` | script.js:209-215 | declined: the document is unchanged; confirmed: exactly the selected key leaves the calendar, which stays present (possibly empty), the day reads as empty, other days and vision unchanged; no calendar: unchanged |
| `PlannerActions.ClearDayIdempotent` | script.js:209-215 | clearing a day twice equals clearing it once |
| `PlannerActions.AddVision` | script.js:218-229 | an empty URL leaves the document as it was; otherwise the vision list (created if missing) gains `{url, caption}` at the end and the calendar is unchanged |
| `PlannerActions.DeleteVision` | script.js:231-236 | declined: unchanged; confirmed: for `idx` in range the list loses exactly element `idx`, the rest keep their order; past the end nothing changes; the calendar is unchanged |
| `PlannerActions.DeleteVisionUndoesAdd` | script.js:218-236 | deleting the picture just added at the end restores the previous vision list |
| `CalendarView.MoodEmoji` | script.js:254-257 | the glyph is non-empty exactly for the five known moods, and then a single emoji |
| `CalendarView.MoodEmojiInjective` | script.js:255 | different known moods get different glyphs |
| `CalendarView.CellMarker` | script.js:118-122 | a cell shows a mood dot exactly when the day exists with a truthy mood, with that mood's glyph; it is marked has-task exactly when the day exists, has no truthy mood and has at least one task |
| `CalendarView.MissingDayLooksEmpty` | script.js:118-140 | a missing day and the empty default record get the same marker |
| `CalendarView.CellFor` | script.js:113-125 | one cell: day number `i + 1`; today and selected exactly when its key is that date's key; a mood dot only for an existing day with a truthy mood, the task mark only for an existing day without one and with tasks, plain exactly otherwise |
| `CalendarView.RenderDays` | script.js:112-133 | one cell per day of the month, numbered from 1, each with the marker of its date key and flagged today or selected exactly when its key is that date's key |
| `CalendarView.AtMostOneTodayAndSelected` | script.js:124-125 | with distinct date keys, at most one cell is today and at most one is selected |
| `CalendarView.EmptyRoomIsPlain` | script.js:69-74 | in the document of a new room every day's cell is plain |
| `DocumentCache.Planner.constructor` | script.js:23 | the first cache `{}` has neither field, and no write has been requested |
| `DocumentCache.Planner.SaveToCloud` | script.js:84-88 | one write of the whole current cache is requested |
| `DocumentCache.Planner.OnSnapshot` | script.js:68-74 | the cache becomes the remote document when it exists and exactly `{calendar: {}, vision: []}` otherwise, with no write |
| `DocumentCache.Planner.EnsureDateStructure` | script.js:167-170 | the cache becomes `EnsureDay` of the old cache |
| `DocumentCache.Planner.AddTask` | script.js:172-181 | the cache becomes `AddTask` of the old cache; a write of the new cache is requested unless the text is blank |
| `DocumentCache.Planner.ToggleTask` | script.js:183-187 | the cache becomes `ToggleTask` of the old cache and a write is requested |
| `DocumentCache.Planner.DeleteTask` | script.js:189-193 | the cache becomes `DeleteTask` of the old cache and a write is requested |
| `DocumentCache.Planner.SetMood` | script.js:195-200 | the cache becomes `SetMood` of the old cache and a write is requested |
| `DocumentCache.Planner.SetDiary` | script.js:202-207 | the cache becomes `SetDiary` of the old cache and a write is requested |
| `DocumentCache.Planner.ClearDayTasks` | script.js:209-215 | the cache becomes `ClearDay` of the old cache; a write is requested exactly when the dialog was confirmed |
| `DocumentCache.Planner.AddVisionItem` | script.js:218-229 | the cache becomes `AddVision` of the old cache; a write is requested exactly when the URL is non-empty |
| `DocumentCache.Planner.DeleteVision` | script.js:231-236 | the cache becomes `DeleteVision` of the old cache; a write is requested exactly when the dialog was confirmed |
| `Scenarios.BuyFood` | script.js:172-181 | adding "Buy food" to a day of an empty room leaves that day's tasks as exactly `[{text: "Buy food", completed: false}]` |
| `Scenarios.DeleteMiddlePicture` | script.js:231-236 | deleting picture 1 of `[a, b, c]` leaves `[a, c]` |
| `Scenarios.TwoActionsThenEcho` | script.js:68-200 | in a new room, adding "Buy food" and then choosing "happy" issues two writes, the second holding the day `{tasks: [{text: "Buy food", completed: false}], mood: "happy", diary: ""}`, and the echo of that write makes the cache equal to it |

## Left out

- Firebase setup, the `onSnapshot` subscription and `setDoc` with `{merge: true}` (script.js:2-17, 66-68, 84-88) are library and network calls. A snapshot is a parameter of `OnSnapshot`, `None` when the document does not exist. A write is an entry appended to `writes`. The server-side merge is not modelled.
- The `currentRoom` guard in `saveToCloud` is not modelled. The handlers can only be reached from the main app, and only `connectToRoom` shows it (script.js:56-57), after setting the room; `checkLogin` keeps it hidden otherwise (script.js:37). So the guard always passes when a handler runs.
- Asynchronous, fire-and-forget persistence is left out. So is last-writer-wins between concurrent clients. Both involve concurrency and the remote store.
- `localStorage`, `checkLogin`, the connect button, `connectToRoom`, `logoutRoom` and `location.reload` are left out. They are browser storage and session wiring.
- All DOM work is left out: `innerHTML`, `classList`, event wiring, the day panel's and vision board's HTML, and clearing the inputs after an add. A `confirm` dialog is modelled only as its boolean answer.
- `getDateKey`, `new Date(...)`, `toLocaleString`/`toLocaleDateString` and month navigation are left out. They are Date and time-zone library behaviour. Date keys are opaque strings, and `RenderDays` takes the month's keys from its caller.
- CalendarView.MoodEmoji: a mood string naming an inherited `Object.prototype` property, such as `"constructor"`, is not modelled. The source's object lookup would return that inherited value; the model returns `""`.
- Field types in remote documents are not modelled. A remote day record is assumed to have a task list, a mood that is `null` or a string, and a text diary. A task is assumed to have a text and a boolean. The source does not check these shapes.

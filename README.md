# Ship staffing: kiosk state machine and calendar grid

This project models two pieces of a small ship-staffing tool and proves properties of them.

1. **The embark/disembark kiosk action** (`EmbarkAction` in `src/app/login/actions.ts`).
   A staff member types a six-character access code. The action looks them up. It then
   either answers without touching the store, or performs exactly one transition:
   - an *embark* sets the staff member's embarked flag and current ship, and appends one
     open schedule interval (no `desembark`) starting now;
   - a *disembark* closes the open interval with the latest `embark`, and clears the flag
     and the ship.

   Every refusal has its own message. The model proves that a refusal leaves the store
   unchanged, that a success changes exactly what the transition names, and that the
   open-interval invariant is preserved. That invariant says an embarked staff member has
   exactly one open interval and a disembarked one has none.
2. **The calendar grid** (`src/components/calendar-view.tsx`). For each (staff member, day)
   cell, the grid takes the first schedule in list order that is assigned to the staff
   member and whose interval holds the day. The cell is classified as Start, End or Middle
   from the day's place in that schedule, or Empty when nothing covers the day. The
   same file holds the list of displayed days (51 days around today) and the two loaders that
   prepend 7 days or append 14.

Days and timestamps are integers. The clock (`now`, `today`) is a parameter. Store failures
are a parameter too: `failing`, the set of store calls that fail with a storage error in a
given run.

Modules:
- `Wrappers`: Option and Result.
- `KioskForm`: reads the status field and applies the form schema.
- `ScheduleStore`: staff and schedule records, open-interval counting, the two writes as
  functions on a store snapshot `Db`, and the invariant lemmas.
- `Kiosk`: the decision chain, the reference semantics `Respond` of the whole action, the
  class `Store` whose methods update the tables in place, and the lemmas.
- `CalendarGrid`: cell lookup and classification.
- `DayWindow`: the class `Calendar` with the displayed days and the loaders' flags.

Where the intended design and the code differ, the model follows the code:
- The calendar has no separate single-day class. A one-day span shows as Start, because the
  start test comes first.
- The calendar draws a fixed list of closed schedules. There is no open-ended "until today"
  span.
- The kiosk reports a failed search for the open interval with the same message as an empty
  one.

The store calls are modelled with the checked result-or-error contract that `actions.ts`
reads (`result.error`, `result.data`). The wrappers in `src/lib/data-access.ts` do not keep
that contract: they return the bare record, or null, and rethrow on failure. See Findings.

Context: the kiosk form in `src/app/login/embark.tsx` (lines 84-86) always submits the
negation of the current status. It never sends a `ship` field, so through that form an
embark is always answered "Ship selection is required to embark."

## Model

| member | source | states |
|---|---|---|
| KioskForm.ParseStatus | src/app/login/actions.ts:353-358 | "true" gives true, "false" gives false, and anything else (or a missing field) gives null, each in both directions |
| KioskForm.Validate | src/app/login/actions.ts:361-374 | accepts exactly when the code is present with 6 characters and the ship is null or non-empty; on success the request carries the code, the parsed status and the ship; on failure the message starts with "Invalid data: ", with the exact texts for a bad code, a missing code, an empty ship, a bad code with an empty ship, and a missing code with an empty ship |
| Kiosk.CurrentView | src/app/login/actions.ts:337-347 | the view carries "first last" as the name, the current ship's name (empty for a staff member with no ship), the typed code and the record's status |
| Kiosk.Lookup | src/app/login/actions.ts:379-386 | the checked staff lookup: a storage error exactly when that call fails; otherwise a record exactly when the code is registered, and then that record |
| ScheduleStore.LatestOpen | src/app/login/actions.ts:288-295 | none exactly when the staff member has no open interval; otherwise an open interval of theirs whose `embark` is at least that of every other open interval of theirs |
| ScheduleStore.AfterEmbark | src/app/login/actions.ts:264-278 | the embark write: that record gets the flag up and the ship, keeping id and name; other records are unchanged; the old intervals are kept and one open interval is appended with the next id, that staff member, that ship and embark = now |
| ScheduleStore.AfterDisembark | src/app/login/actions.ts:314-327 | the disembark write: that record gets the flag down and no ship, keeping id and name; other records are unchanged; interval k gets desembark = now and keeps its other fields; every other interval is unchanged |
| ScheduleStore.OpenCountAppend | src/app/login/actions.ts:269-274 | appending an interval raises its owner's open count by one exactly when it is open, and leaves every other count alone |
| ScheduleStore.OpenCountZero | src/app/login/actions.ts:297-301 | a staff member's open count is zero exactly when none of their intervals is open |
| ScheduleStore.OpenCountClose | src/app/login/actions.ts:318-323 | closing one interval lowers its owner's open count by one if it was open, and changes no other staff member's count |
| ScheduleStore.EmbarkPreservesWellFormed | src/app/login/actions.ts:264-278 | embarking a disembarked staff member keeps ids unique and fresh, closed intervals chronological, and open intervals matching the flags |
| ScheduleStore.DisembarkPreservesWellFormed | src/app/login/actions.ts:287-327 | closing the latest open interval at a time not before its embark keeps the store well formed |
| ScheduleStore.DisembarkClosesLastOpen | src/app/login/actions.ts:314-327 | a staff member with at most one open interval has none after a disembark |
| Kiosk.EmbarkWrite | src/app/login/actions.ts:264-285 | the embark write fails as a whole (store unchanged) exactly on a storage error or an unknown ship; otherwise the store becomes the embarked store and the updated record is returned |
| Kiosk.DisembarkWrite | src/app/login/actions.ts:287-335 | "No active schedule found…" exactly when the search fails or finds nothing; a null result exactly when the search succeeds and the update fails; the updated record exactly when the search finds an open interval and the update works; unchanged store unless it succeeds; on success the latest open interval is closed at `now` and the result is the updated record |
| Kiosk.Respond | src/app/login/actions.ts:257-447 | the whole action, every outcome with its exact answer: a schema failure answered before any store call; "Staff not found." with no view; the view alone for a null status; each refusal (ship required, checked before already embarked; already embarked; already disembarked; no active schedule; internal database error on a failed update or an unknown ship) with its message and the current view and no change; a successful embark or disembark with "Thank you!", the updated view and the new store; no success means no change, and success means a change |
| Kiosk.Decide | src/app/login/actions.ts:391-423 | the early returns: the view alone for a null status; ship required before already embarked; embark exactly for a wanted embark with a ship and the flag down, disembark exactly for a wanted disembark with the flag up; every reply carries the view and no success |
| Kiosk.Conclude | src/app/login/actions.ts:425-446 | a null result gives the internal database error and the old view; an error object gives its message and the old view; an updated record gives "Thank you!" and that record's view |
| Kiosk.EmbarkFrame | src/app/login/actions.ts:264-278 | a successful embark sets the flag and the ship, appends exactly one interval (next id, this staff member, that ship, embark = now, open) and changes no other staff record |
| Kiosk.DisembarkFrame | src/app/login/actions.ts:314-327 | a successful disembark closes the latest open interval of that staff member at `now`, clears the flag and the ship, and changes no other interval or staff record |
| Kiosk.RespondPreservesWellFormed | src/app/login/actions.ts:397-423 | for any form and any failing calls, with a clock not behind any embark, the action keeps a well-formed store well formed |
| Kiosk.SecondEmbarkRefused | src/app/login/actions.ts:407-412 | right after a successful embark, the same form is answered "Staff is already embarked." and changes nothing |
| Kiosk.SecondDisembarkRefused | src/app/login/actions.ts:416-421 | right after a successful disembark, the same form is answered "Staff is already disembarked." and changes nothing |
| Kiosk.LookupAsWritten | src/app/login/actions.ts:384-388 | as written, the checks on the wrapper's bare result never go on with a staff member: a storage error is rethrown, an unknown code throws a TypeError, and a registered code is answered "Staff not found." |
| Kiosk.RawFindUnique | src/lib/data-access.ts:51-66 | the wrapper rethrows exactly when the call fails, gives null exactly for an unknown code, and otherwise the bare record of that code |
| Kiosk.RegisteredCodeRefusedAsWritten | src/lib/data-access.ts:51-66 | for a registered code and a working store, the as-written lookup answers "Staff not found." while the checked lookup returns the record |
| Kiosk.Store.FindByCode | src/app/login/actions.ts:379-382 | the store method for the staff lookup answers what Lookup gives on the current tables |
| Kiosk.Store.FindLatestOpen | src/app/login/actions.ts:288-301 | a storage error exactly when that call fails; otherwise what LatestOpen gives on the current schedule table |
| Kiosk.Store.EmbarkStaff | src/app/login/actions.ts:264-285 | updates the tables in place to what EmbarkWrite gives, and returns its result |
| Kiosk.Store.DisembarkStaff | src/app/login/actions.ts:287-335 | updates the tables in place to what DisembarkWrite gives, and returns its result |
| Kiosk.Store.EmbarkAction | src/app/login/actions.ts:257-447 | the answer and the new tables are those of Respond on the old tables |
| CalendarGrid.FirstCovering | src/components/calendar-view.tsx:172-179 | the first position, in list order, of a schedule assigned to the row whose interval holds the day; none exactly when no schedule does |
| CalendarGrid.NonEmptyCellFromFirstCovering | src/components/calendar-view.tsx:172-185 | a non-empty cell comes from the first covering schedule: assigned to the row, holding the day between its start and end, with no earlier covering schedule, and classified from it |
| CalendarGrid.Chosen | src/components/calendar-view.tsx:172-179 | the `find` result: none exactly when no assigned schedule covers the day, otherwise the first schedule in list order that is assigned to the row and covers the day |
| CalendarGrid.Classify | src/components/calendar-view.tsx:185-213 | never Empty; Start exactly when the day is the start; End exactly when it is the end and not the start; Middle exactly when it is neither |
| CalendarGrid.CellAt | src/components/calendar-view.tsx:181-214 | Empty exactly when no assigned schedule's interval holds the day; otherwise the class of the first covering schedule in list order |
| CalendarGrid.ClassifyCases | src/components/calendar-view.tsx:185-213 | for a day inside a schedule's interval, Middle only strictly between its ends, and a one-day span is Start |
| CalendarGrid.OnlyAssignedMatter | src/components/calendar-view.tsx:174 | dropping the schedules not assigned to the row changes neither the chosen schedule nor the cell |
| CalendarGrid.SameAssignmentSameCell | src/components/calendar-view.tsx:172-179 | two rows with the same assigned schedule ids get the same chosen schedule and the same cell on every day |
| CalendarGrid.SingleDaySpan | src/components/calendar-view.tsx:185-195 | a one-day schedule shows Start on its day and Empty on the days before and after |
| CalendarGrid.RowCells | src/components/calendar-view.tsx:167-214 | one cell per displayed day, in the displayed order |
| DayWindow.DayRange | src/components/calendar-view.tsx:55 | every day from start to end inclusive, in order: the right length, each position one day after the previous, and exactly the days in range |
| DayWindow.InitialDays | src/components/calendar-view.tsx:52-56 | 51 consecutive days, from today-5 to today+45, holding exactly the days in that range |
| DayWindow.PastDays | src/components/calendar-view.tsx:63-70 | 7 consecutive days ending the day before the old first day |
| DayWindow.FutureDays | src/components/calendar-view.tsx:80-87 | 14 consecutive days starting the day after the old last day |
| DayWindow.PastExtendsConsecutive | src/components/calendar-view.tsx:71 | prepending the past block keeps the list consecutive, keeps the old days after it unchanged, and starts 7 days earlier |
| DayWindow.FutureExtendsConsecutive | src/components/calendar-view.tsx:88 | appending the future block keeps the list consecutive, keeps the old days before it unchanged, and ends 14 days later |
| DayWindow.Calendar.constructor | src/components/calendar-view.tsx:49-56 | starts with the initial 51 days and both loading flags down |
| DayWindow.Calendar.BeginLoadPastDays | src/components/calendar-view.tsx:58-65 | starts exactly when the past flag is down and the list is non-empty; otherwise changes nothing; when started, raises the flag and fixes the 7-day block before the first day |
| DayWindow.Calendar.FinishLoadPastDays | src/components/calendar-view.tsx:70-72 | prepends the pending block, lowers the flag, keeps the list consecutive even with a future load in flight |
| DayWindow.Calendar.BeginLoadFutureDays | src/components/calendar-view.tsx:75-82 | starts exactly when the future flag is down and the list is non-empty; otherwise changes nothing; when started, raises the flag and fixes the 14-day block after the last day |
| DayWindow.Calendar.FinishLoadFutureDays | src/components/calendar-view.tsx:87-89 | appends the pending block, lowers the flag, keeps the list consecutive even with a past load in flight |
| DayWindow.Calendar.LoadPastDays | src/components/calendar-view.tsx:58-73 | as one step: no change when guarded off, otherwise the 7-day block before the old first day is prepended |
| DayWindow.Calendar.LoadFutureDays | src/components/calendar-view.tsx:75-90 | as one step: no change when guarded off, otherwise the 14-day block after the old last day is appended |
| DayWindow.OverlappingLoads | src/components/calendar-view.tsx:58-90 | with a past load and a future load in flight together, the list ends up as 72 consecutive days from today-12 to today+59 |

## Left out

- Login, password recovery, password reset and logout (`actions.ts` 36-245, 450-454). They are hashing, token signing, cookies, e-mail and redirects, all calls into other code.
- `fetchShips` (`actions.ts` 457-466) is a plain read of the ship table.
- `src/lib/data-access.ts` and `src/lib/prisma.ts` are not part of this model beyond the Finding. The store is the `Db` snapshot and the `Store` class.
- Date parsing and formatting, time zones and the clock. Days are integers, and `now` and `today` are parameters.
- Cache revalidation (`revalidatePath`) and error logging. They do not change the store or the answer.
- `getCurrentStaffUIState`'s name and ship strings come from the record's fields and the ship directory. JavaScript's `|| ""` makes no difference for a ship with an empty name.
- The schema library's length rule counts UTF-16 code units. The model counts Dafny characters.
- The schema library's message for a missing code is modelled as one fixed text. A form value that is a file upload rather than a string is not modelled.
- ScheduleStore.LatestOpen: when two open intervals share the greatest `embark`, the model picks the earlier one stored. The database's order for ties is unspecified.
- Kiosk.Store.DisembarkStaff: the chosen interval is identified by its position in the table, not by its id. With unique ids, as `WellFormed` demands, the two are the same.
- Concurrency and atomicity. Each action is one sequential step. Each nested update is all-or-nothing, as one database update is. Two kiosks acting on the same code at the same time are not modelled.
- The calendar's `setTimeout` wait is the gap between `Begin…` and `Finish…`. React's stale closures are not modelled: the guard sees the current flag.
- The calendar's hard-coded mock schedule list and its parsing from text. The model takes the list of schedules as a parameter.
- Hover and "today" highlighting, and all rendering. These are presentation only.
- CalendarGrid.WithinInterval follows the date library (versions 3 and 4), which orders the two ends before testing. So a schedule whose end is before its start covers the days between end and start. NonEmptyCellFromFirstCovering states the start-to-end bound only for ordered schedules.
- DayWindow.DayRange is empty for start > end. The loaders never ask for such a range.

## Findings

| source | as written | input that shows it | evidently intended | confidence | as-written member | corrected member |
|---|---|---|---|---|---|---|
| src/app/login/actions.ts:384 | `findUnique` returns the bare staff record (or null) and rethrows on failure. The action tests `staffResult.error` or `!staffResult.data`, and the second is true for a bare record, since a staff record has no `data` property. For null it throws a TypeError. | any registered six-character code with a working store | the lookup hands back `{ data, error }`, so a registered code reaches the status decision | not executed | Kiosk.LookupAsWritten | Kiosk.Lookup |

The wrapper is `findUnique` in `src/lib/data-access.ts` (lines 51-66). Kiosk.RegisteredCodeRefusedAsWritten
exhibits the discrepancy. Kiosk.Respond and Kiosk.Store.FindByCode use the corrected lookup.

The other store calls of the action do not keep the checked contract either. These are not
modelled as written, because the lookup above already stops every request before them:
- `findMany` (data-access.ts 75-90) returns a bare array. The disembark helper
  (`actions.ts` 297-311) then reads `.data`, finds it undefined, and answers
  "No active schedule found…" whenever `findMany` itself succeeds; a storage error is
  rethrown (data-access.ts 88) and escapes EmbarkAction.
- The helpers call `update` with two arguments (`actions.ts` 265-278 and 314-327), and the
  `where` clause is inside the second one. `update` (data-access.ts 100-122) wraps that
  argument as `data` and takes `where` from a third argument, which is absent. So the
  ORM client's argument check rejects the call before any query is sent, the wrapper rethrows, nothing in EmbarkAction catches the
  error, and nothing is written.

The model uses the checked contract and the intended single atomic update throughout.

# Timesheet page of the payroll front end

This project models the timesheet logic of the payroll front end's timesheet page
(`src/pages/TimesheetsPage.tsx`) and proves its properties. The page works in five
steps. A manager picks an employee and a period. The page checks that the period
is exactly seven days and turns it into one row per calendar day. It prefills the
rows from the stored timesheet, if the backend has one, and lets the manager edit
the start, end and break of each row. On save it validates the whole draft,
collecting every violated rule as one message in a fixed order, and sends the
payload only when there are no messages.

Modules:

- `Options`: the `Option` datatype.
- `Strings`: digits, zero-padded numbers and the decimal numeral of `${idx + 1}`.
  It also defines `Less`, JavaScript's `<` on strings.
- `Calendar`: proleptic Gregorian dates and day numbers.
  - `Parse` reads a strict `YYYY-MM-DD` string and stands in for `Date.parse` / `new Date(s)`.
  - `Format` is `toISOString().slice(0, 10)`.
  - `TimeValue` is `getTime()` at UTC midnight.
- `TimeOfDay`: the `HH:mm` regular expression, and that string order on such
  times is minute order.
- `Timesheets`: the entity datatypes, `getDateRange` (`DateRange`, a method with
  the source's loop) and `isSevenDayRange`. It also holds the validator.
  - `ValidateTimesheet` is a method that pushes messages as the source does.
  - It is proved equal to `TimesheetErrors`, the messages of the list of
    violated rules (`Violations`).
  - Lemmas about `Violations` state which rules are reported (each one exactly
    when it applies), in what order, and that no message repeats.
- `Entries`: the prefill (`Find`, `Prefill`), the single-field edit (`Apply`,
  `UpdateEntry`), the save payload (`BuildPayload`) and the row time guards.
- `TimesheetsPage`: the page's state hooks as the class `TimesheetForm`, with one
  method per handler. Calls to the backend are returned as `LoadRequest` /
  `SaveRequest` values instead of being sent.
- `Scenarios`: example drafts and periods, and what the validator and the seven-day gate make of them.

## Model

| member | source | states |
|---|---|---|
| Calendar.Format | src/pages/TimesheetsPage.tsx:13 | `toISOString().slice(0, 10)`: the ten-character `YYYY-MM-DD` text of a date (it parses back, by ParseFormat) |
| Calendar.TimeValue | src/pages/TimesheetsPage.tsx:25 | `getTime()` at UTC midnight: a whole number of days in milliseconds, counted from 1970-01-01 (UnixEpoch) |
| Calendar.Parse | src/pages/TimesheetsPage.tsx:47 | a date string that parses names an existing date of years 0000-9999 |
| Calendar.ParseCanonical | src/pages/TimesheetsPage.tsx:47 | a string that parses is exactly the canonical `YYYY-MM-DD` text of its date |
| Calendar.ParseFormat | src/pages/TimesheetsPage.tsx:13 | the `YYYY-MM-DD` text the range emits parses back to the same date |
| Calendar.NextDay | src/pages/TimesheetsPage.tsx:14 | `setDate(getDate() + 1)` gives a valid date whose day number is one more |
| Calendar.TimeValueDifference | src/pages/TimesheetsPage.tsx:25 | the `getTime()` difference of two dates is their day difference times 86400000 |
| Calendar.FormatLess | src/pages/TimesheetsPage.tsx:153 | string `<` on the canonical texts of two dates holds exactly when the first date is earlier |
| Calendar.LessIsBefore | src/pages/TimesheetsPage.tsx:153 | on date strings, JavaScript's string `<` holds exactly when the first date is earlier |
| Strings.Decimal | src/pages/TimesheetsPage.tsx:60 | `${idx + 1}`: one or more decimal digits, a single digit exactly for numbers below 10 |
| Strings.Less | src/pages/TimesheetsPage.tsx:153 | JavaScript's `<` on strings, lexicographic by character; it is strict, so never holds of a string and itself |
| Strings.DecimalInjective | src/pages/TimesheetsPage.tsx:60 | different entry numbers give different `${idx + 1}` texts |
| TimeOfDay.IsHHmm | src/pages/TimesheetsPage.tsx:64 | the `HH:mm` regular expression: hour 00-19 or 20-23, a colon, minute 00-59; that it accepts exactly the times 00:00-23:59 is ClockAccepted with AcceptedIsClock |
| TimeOfDay.ClockAccepted | src/pages/TimesheetsPage.tsx:64 | every time 00:00-23:59 written `HH:mm` matches the pattern and reads back as its hour and minute |
| TimeOfDay.AcceptedIsClock | src/pages/TimesheetsPage.tsx:64 | a string matches the pattern only if it is an hour below 24 and a minute below 60 written `HH:mm` |
| TimeOfDay.RejectedExamples | src/pages/TimesheetsPage.tsx:70 | "9:00", "24:00", "12:60" and "" are rejected; "09:00", "23:59", "00:00" are accepted |
| TimeOfDay.LessIsEarlier | src/pages/TimesheetsPage.tsx:350 | on `HH:mm` times, string `<` holds exactly when the first time is earlier in the day |
| Timesheets.DateRange | src/pages/TimesheetsPage.tsx:8-17 | the range is empty when a date does not parse, has end − start + 1 elements (none when end is earlier), element i is the date start + i, the first element is start and the last is end |
| Timesheets.DaysFrom | src/pages/TimesheetsPage.tsx:12-15 | the loop emits end − start + 1 strings (none when the end is earlier), the text of day start + i at position i, from the start day to the end day |
| Timesheets.RangeStrings | src/pages/TimesheetsPage.tsx:10-16 | the texts of those days parse back to start + i, and the first and last are the start and end strings themselves |
| Timesheets.IsSevenDayRange | src/pages/TimesheetsPage.tsx:20-26 | true exactly when both dates parse and the end is 6 days after the start |
| Timesheets.SevenDayRangeSpan | src/pages/TimesheetsPage.tsx:20-26 | a seven-day range is exactly a range of seven calendar days |
| Timesheets.SevenDayRangeOrdered | src/pages/TimesheetsPage.tsx:20-26 | a seven-day range has both dates given and the end not before the start as strings |
| Timesheets.EndsBefore | src/pages/TimesheetsPage.tsx:52 | `new Date(periodEnd) < new Date(periodStart)`: false whenever either date does not parse |
| Timesheets.EndsBeforeDayNumber | src/pages/TimesheetsPage.tsx:52 | on two dates that parse, the comparison holds exactly when the end is an earlier day |
| Timesheets.Message | src/pages/TimesheetsPage.tsx:45-83 | the text pushed for each violation, entries numbered from 1; different violations get different texts, by MessageInjective |
| Timesheets.Violations | src/pages/TimesheetsPage.tsx:42-85 | the violated rules in push order; a rule is in it exactly when it applies, by ViolationsComplete |
| Timesheets.ValidateTimesheet | src/pages/TimesheetsPage.tsx:29-86 | the messages returned are the messages of the violated rules, in rule order |
| Timesheets.ValidatePeriod | src/pages/TimesheetsPage.tsx:47-54 | the period messages are those of the violated period rules: start missing, then end missing or else end before start |
| Timesheets.ValidateEntries | src/pages/TimesheetsPage.tsx:58-80 | the entry messages are those of each entry in turn |
| Timesheets.ValidateEntry | src/pages/TimesheetsPage.tsx:59-79 | one entry's messages are those of its violated rules, in the order date, start, end, break |
| Timesheets.EntryViolationsIn | src/pages/TimesheetsPage.tsx:58-80 | entry i's rule is reported exactly when i is an entry and that entry breaks the rule |
| Timesheets.ViolationsComplete | src/pages/TimesheetsPage.tsx:42-85 | a rule is in the violation list exactly when its condition, stated independently, holds |
| Timesheets.EntryViolationsOrdered | src/pages/TimesheetsPage.tsx:58-80 | entry violations are grouped by entry in entry order, and by rule order within an entry |
| Timesheets.ViolationsOrdered | src/pages/TimesheetsPage.tsx:42-85 | the violations come in the fixed order employee, start, end, entries, allowances, each at most once |
| Timesheets.MessageInjective | src/pages/TimesheetsPage.tsx:45-83 | different violations have different messages |
| Timesheets.ErrorReported | src/pages/TimesheetsPage.tsx:42-85 | a violation's message is among the errors exactly when the violation applies |
| Timesheets.ErrorsDistinct | src/pages/TimesheetsPage.tsx:42-85 | no message appears twice |
| Timesheets.WellFormedNoViolations | src/pages/TimesheetsPage.tsx:42-85 | a well-formed draft has no violations |
| Timesheets.MalformedSomethingApplies | src/pages/TimesheetsPage.tsx:42-85 | a draft that is not well formed has at least one applicable violation |
| Timesheets.NoErrorsIffWellFormed | src/pages/TimesheetsPage.tsx:42-85 | the validator returns no messages exactly for a well-formed draft |
| Timesheets.PeriodEndMessagesExclusive | src/pages/TimesheetsPage.tsx:50-54 | "must be after" never comes with "end date is required"; it comes only with both dates given and neither "required" message |
| Timesheets.NoEntriesMessage | src/pages/TimesheetsPage.tsx:55-57 | without entries there is exactly one "At least one..." message and no `Entry i:` message |
| Entries.DatePrefix | src/pages/TimesheetsPage.tsx:120 | `slice(0, 10)` is the prefix of length min(10, length) |
| Entries.Find | src/pages/TimesheetsPage.tsx:120 | `find` finds nothing exactly when no stored entry matches, and otherwise gives the first matching entry |
| Entries.Prefill | src/pages/TimesheetsPage.tsx:119-128 | one row per date in range order, with the date; the times and break of the first matching stored entry, or '' / '' / 0 when none matches |
| Entries.ToApiEntry | src/pages/TimesheetsPage.tsx:228-233 | the payload entry carries the date, and startTime/endTime/breakMins as start/end/unpaidBreakMins |
| Entries.BuildPayload | src/pages/TimesheetsPage.tsx:224-235 | the payload carries the form's employee, period and allowances, and the rows renamed in the same order |
| Entries.SaveThenPrefill | src/pages/TimesheetsPage.tsx:119-128 | prefilling the saved rows' dates from the saved payload entries rebuilds the rows, when their dates are distinct and at most ten characters |
| Entries.WellFormedDates | src/pages/TimesheetsPage.tsx:59 | a well-formed draft's row dates are ten characters long |
| Entries.ValidatedPayload | src/pages/TimesheetsPage.tsx:223-236 | a payload built after no errors has an employee, ordered period dates that parse, at least one entry, dates that parse, `HH:mm` times, non-negative number breaks and non-negative allowances |
| Entries.Apply | src/pages/TimesheetsPage.tsx:144 | `{ ...entry, [field]: value }` gives the edited field the new value and keeps every other field |
| Entries.ApplyUnchanged | src/pages/TimesheetsPage.tsx:144 | writing a field's current value changes nothing |
| Entries.ApplyOverwrites | src/pages/TimesheetsPage.tsx:144 | of two edits of the same field, the last wins |
| Entries.UpdateEntry | src/pages/TimesheetsPage.tsx:141-147 | the row count is kept, every other row is unchanged, and in row idx only the edited field changes, to the new value |
| Entries.UpdateKeepsDates | src/pages/TimesheetsPage.tsx:141-147 | an edit keeps every row's date |
| Entries.UpdateIdempotent | src/pages/TimesheetsPage.tsx:141-147 | making the same edit twice equals making it once |
| Entries.StartAccepted | src/pages/TimesheetsPage.tsx:348-355 | a new start is accepted exactly when there is no end or it is before the end, and then the row's times are in order |
| Entries.EndAccepted | src/pages/TimesheetsPage.tsx:364-371 | a new end is accepted exactly when there is no start or it is after the start, and then the row's times are in order |
| Entries.GuardsCompareMinutes | src/pages/TimesheetsPage.tsx:350-366 | on `HH:mm` times the guards accept exactly the start earlier in the day than the end |
| TimesheetsPage.LoadAllowed | src/pages/TimesheetsPage.tsx:167-172 | the load condition: an employee, both dates given, and a seven-day range |
| TimesheetsPage.TimesheetForm.constructor | src/pages/TimesheetsPage.tsx:91-98 | the initial state: nothing selected, no rows or messages, not loaded, no id, allowances 0 |
| TimesheetsPage.TimesheetForm.CurrentDraft | src/pages/TimesheetsPage.tsx:215-221 | the draft handed to the validator is the current employee, period, rows and allowances |
| TimesheetsPage.TimesheetForm.SelectEmployee | src/pages/TimesheetsPage.tsx:271-274 | a new employee is stored and the week is unloaded |
| TimesheetsPage.TimesheetForm.HandleStartChange | src/pages/TimesheetsPage.tsx:150-156 | the new start is stored, the week unloaded, and an end before the new start is cleared, so a remaining end is never before the start |
| TimesheetsPage.TimesheetForm.HandleEndChange | src/pages/TimesheetsPage.tsx:158-161 | the new end is stored and the week is unloaded |
| TimesheetsPage.TimesheetForm.HandleLoadTimesheet | src/pages/TimesheetsPage.tsx:164-181 | the week is requested exactly when an employee and a seven-day period are set; otherwise the single gate message is shown |
| TimesheetsPage.TimesheetForm.LoadSucceeded | src/pages/TimesheetsPage.tsx:110-131 | the id of the first stored timesheet is kept; the rows are the days of the period in order, prefilled from its entries, seven of them for a seven-day period; the week is loaded |
| TimesheetsPage.TimesheetForm.LoadFailed | src/pages/TimesheetsPage.tsx:133-137 | the week is unloaded and the id forgotten |
| TimesheetsPage.TimesheetForm.HandleEntryChange | src/pages/TimesheetsPage.tsx:141-147 | the rows become the single-field edit of the old rows |
| TimesheetsPage.TimesheetForm.ChangeStartTime | src/pages/TimesheetsPage.tsx:348-355 | the start edit is made exactly when the guard accepts it, leaving that row's times in order |
| TimesheetsPage.TimesheetForm.ChangeEndTime | src/pages/TimesheetsPage.tsx:364-371 | the end edit is made exactly when the guard accepts it, leaving that row's times in order |
| TimesheetsPage.TimesheetForm.SetAllowances | src/pages/TimesheetsPage.tsx:399 | the allowances take the entered number |
| TimesheetsPage.TimesheetForm.HandleSave | src/pages/TimesheetsPage.tsx:214-238 | the validator's messages are shown; a request is made exactly when the draft is well formed, carrying its payload, as an update with the id when there is one and as an add otherwise |
| Scenarios.GoodDraftAccepted | src/pages/TimesheetsPage.tsx:42-85 | the example well-formed one-row draft for 2024-01-01..2024-01-07 validates to no messages, and its period passes the gate |
| Scenarios.MissingEmployeeOnly | src/pages/TimesheetsPage.tsx:44-46 | a well-formed draft whose employee is cleared gets exactly the employee message |
| Scenarios.GoodDraftWithoutEmployee | src/pages/TimesheetsPage.tsx:44-46 | the example draft without an employee gets exactly ["Employee is required."] |
| Scenarios.FirstStartTimeMessage | src/pages/TimesheetsPage.tsx:66 | the first entry's start-time message reads "Entry 1: Start time must be in HH:mm format." |
| Scenarios.UnpaddedStartTimeRejected | src/pages/TimesheetsPage.tsx:62-67 | any draft whose first entry starts at "9:00" gets the first entry's start-time message |
| Scenarios.ReversedPeriod | src/pages/TimesheetsPage.tsx:47-54 | two dates that parse with the end earlier than the start get "Period end date must be after start date." and neither "required" message |
| Scenarios.ReversedFirstWeek | src/pages/TimesheetsPage.tsx:50-54 | 2024-01-07 to 2024-01-01 is such a reversed period: both dates parse and the end is the earlier day |
| Scenarios.NegativeAllowancesReported | src/pages/TimesheetsPage.tsx:82-84 | negative allowances are reported whatever else the draft holds |
| Scenarios.EightDayDraftValidates | src/pages/TimesheetsPage.tsx:29-86 | the validator does not check the seven-day rule: an eight-day well-formed draft gets no messages, although its period fails the gate |
| Scenarios.SevenDayGateRefusals | src/pages/TimesheetsPage.tsx:20-26 | the gate refuses a reversed period, a single day, six days, eight days and a missing date |

## Left out

- Dates: `Date.parse` accepts many formats; the model accepts only `YYYY-MM-DD` with years 0000-9999 and a day that exists in its month. Those are the strings a date input and the range produce.
- Time zones: `getDateRange` mixes local `setDate` with UTC `toISOString`. The model steps whole UTC days on the civil calendar.
- Floating point: the millisecond-per-day division in `isSevenDayRange` is modelled as exact real division. Breaks and allowances are reals.
- NaN: `Number(...)` of text that is not a number is NaN, which passes the `< 0` checks. NaN is not modelled.
- Timesheets.ValidateTimesheet: omits the `typeof employeeId !== 'string'` and `Array.isArray(entries)` checks, because the page always passes a string and an array. The `typeof allowances` check is also omitted, because allowances are a number in the model. The `typeof entry.breakMins` check is modelled.
- Entries.Apply: the untyped `[field]: value` is modelled only for the three edits the rows make (start time, end time, break minutes). No input edits a row's date.
- TimesheetsPage.TimesheetForm.LoadSucceeded: a response that is not an array gives no entries and a null id, exactly like an empty list, and the model's empty `data` covers it. The model assumes that the first timesheet has an `_id` and an array of `entries` whose `date` is a string. Without `_id` the source stores `undefined` as the id. Without `entries`, or with a `date` that is not a string, its `find` throws once the range has a day. None of these cases is modelled.
- TimesheetsPage.TimesheetForm.LoadSucceeded: `data[0].allowances || 0` is computed but never stored by the source. The model does not store it either, so loading does not restore allowances.
- TimesheetsPage.TimesheetForm.LoadSucceeded: reads the period in the state when the response arrives. React closures and the batching of state updates are not modelled.
- The rejection in `updateTimesheetMutation` when there is no id cannot be reached from `handleSave`, which calls update only with an id.
- The network, react-query lifecycles (`isPending`, retries), `alert` and the employee list query are not modelled. Requests come back as values.
- Rendering: the disabled conditions of the buttons, the seven-day warning banner, the `min` attributes of the inputs, and the other pages and components are not modelled.
- Strings.Less: compares Unicode scalar values, while JavaScript compares UTF-16 code units. The two orders agree on the ASCII date and time strings compared here.

# Expense Tracker — a verified model of the command handlers

Expense Tracker is a small command-line tool. It keeps a list of expenses
in `data.json`. Each record has an `id`, a `date` (`YYYY-MM-DD`), a
`description` and an `amount`. The tool has five commands: `add`, `list`,
`delete`, `update` and `summary`.

This project models the parts of `index.js` that decide what happens to
the list:

- `getNewId`, which allocates ids;
- the bodies of the `add`, `delete`, `update` and `summary` handlers, with
  their checks in the source's order, their error outcomes, and the list
  that is saved afterwards.

The model is split into these modules:

- `JsText` (`text.dfy`): `String.prototype.trim` and the white-space set
  it strips.
- `Options` and `Dates` (`dates.dfy`): the `YYYY-MM-DD` date the tool
  writes, and the month the summary reads back from it.
- `Expenses` (`expenses.dfy`): the record, `getNewId`, `findIndex`,
  `splice`, and the `filter`/`reduce` totals. It also holds the list's
  invariant, `WellFormed`: distinct positive ids, readable dates, positive
  amounts and descriptions that are not blank.
- `Commands` (`commands.dfy`): each handler as a function. It takes the
  loaded list and the parsed options, and returns the outcome together with
  the list as it is persisted. On every early return that list is the one
  that was loaded.
- `CommandProperties` (`properties.dfy`): properties that span several
  commands. Delete undoes add, ids get reused, totals move by the amount
  added, removed or replaced, and the twelve month totals add up to the
  overall total.
- `ExpenseStore` (`store.dfy`): a `Store` class. Its `expenses` field plays
  the role of `data.json`. The handlers that save (`Add`, `Delete`,
  `Update`) are methods that edit a working copy step by step, as the
  source does. Each is proved equal to its `Commands` function and to keep
  `WellFormed`.

Option values follow JavaScript truthiness, as commander passes them:

- `--description ""` and `--amount ""` on `update` count as not given.
  `Supplied` models this for the description; `Arg.Empty` models it for
  the amount.
- `--month ""` on `summary` prints the overall total.
- A number that does not parse (`NaN`) is `None`.
- The clock is the parameter `today`.

`getNewId` takes the largest id still stored, so deleting the newest record
frees its id for the next `add`; `CommandProperties.DeletedIdIsHandedOutAgain`
states it.

## Model

| member | source | states |
|---|---|---|
| JsText.Trim | index.js:45 | the trimmed string is no longer than the input, and it neither starts nor ends with white space |
| JsText.TrimEmptyIffBlank | index.js:45 | `!s.trim()` holds exactly when every character of s is ECMAScript white space, the empty string included |
| JsText.TrimKeepsMiddle | index.js:129 | trim only removes blank text at either end: the result is a slice of the input with blank text before and after it |
| JsText.TrimStart | index.js:45 | the leading white space is removed: the result is a suffix, the dropped prefix is blank, and the result does not start with white space |
| JsText.TrimEnd | index.js:45 | the trailing white space is removed: the result is a prefix, the dropped suffix is blank, and the result does not end with white space |
| Dates.DaysInMonth | index.js:60 | a month of the Gregorian calendar has 28 to 31 days |
| Dates.Digits | index.js:60 | a number is written with exactly the requested count of decimal digits |
| Dates.DigitsRoundTrip | index.js:60 | reading back the digits of a zero-padded number gives the number |
| Dates.FormatDate | index.js:60 | the date part of `toISOString()` has the shape `DDDD-DD-DD` |
| Dates.MonthOf | index.js:165 | a month read from a stored date is in 1..12, or there is none (NaN) |
| Dates.FormatDateRoundTrip | index.js:60 | the year, month and day fields of the stored date read back as the year, month and day of the clock reading it was written from |
| Dates.MonthOfFormatDate | index.js:60 | the `MM` field of a date that `add` writes reads back as the month it was written with |
| Expenses.MaxId | index.js:36 | `Math.max` of the ids is at least every id and is the id of some record |
| Expenses.NewId | index.js:35-37 | getNewId is 1 for an empty list; otherwise it is one more than an id present in the list and larger than every id |
| Expenses.NewIdIsFresh | index.js:35-37 | the id getNewId hands out is carried by no record, and it is at least 1 when all ids are |
| Expenses.AppendKeepsWellFormed | index.js:64 | pushing a record with a fresh positive id, a readable date, a positive amount and a description that is not blank keeps the invariant |
| Expenses.AppendNewRecordKeepsWellFormed | index.js:45-64 | the record `add` pushes, with getNewId's id, today's date, and a description and amount that passed the checks, keeps the list's invariant |
| Expenses.WellFormedTotals | index.js:164-169 | in a list the tool built, no amount is negative, so every month's total lies between 0 and the overall total |
| Expenses.FindIndex | index.js:97 | `findIndex` is -1 exactly when no record has the id; otherwise it is the first position holding it |
| Expenses.FirstIsOnly | index.js:97 | when ids are distinct, the first record with an id is the only one |
| Expenses.RemoveAt | index.js:103 | `splice(i, 1)` removes the record at i and keeps every other record in order |
| Expenses.RemoveAtKeepsWellFormed | index.js:103 | removing a record keeps the invariant and leaves its id absent; every other id keeps its presence |
| Expenses.InMonth | index.js:164-165 | the month filter keeps exactly the records whose stored date has that month, and never grows the list |
| Expenses.InMonthCounts | index.js:164-165 | the month filter keeps each record of the month as many times as it occurs in the list, and no record of another month |
| Expenses.TotalNonNegative | index.js:166 | the `reduce` sum of a list whose amounts are all at least 0 is at least 0 |
| Expenses.TotalAppend | index.js:169 | the sum of two lists placed one after the other is the sum of their sums |
| Expenses.TotalSnoc | index.js:169 | pushing a record raises the sum by its amount |
| Expenses.TotalSplit | index.js:169 | the sum is the sum before position i, plus the amount at i, plus the sum after i |
| Expenses.TotalRemoveAt | index.js:103 | splicing out a record lowers the sum by that record's amount |
| Expenses.TotalReplaceAt | index.js:142 | replacing one record changes the sum by the difference of the two amounts |
| Expenses.SameIdsAndDatesKeepWellFormed | index.js:128-143 | an edit that keeps every id and date, and writes only records with a positive amount and a description that is not blank, keeps the invariant |
| Expenses.InMonthAppend | index.js:164-165 | filtering two lists placed one after the other is the concatenation of the two filtered lists |
| Expenses.MonthTotalWithoutMatches | index.js:164-166 | a month in which no record falls totals 0 |
| Expenses.MonthTotalAtMostTotal | index.js:164-169 | with non-negative amounts, a month's total lies between 0 and the overall total |
| Expenses.MonthTotalSnoc | index.js:164-166 | pushing a record raises the total of its own month by its amount, and no other month's total |
| Expenses.MonthsTotalSnoc | index.js:164-166 | pushing a record with a readable month raises the sum of the first k month totals by its amount if its month is among them |
| Expenses.MonthsPartitionTotal | index.js:164-169 | when every date is readable, the twelve month totals add up to the overall total |
| Expenses.MonthsTotalOfEmpty | index.js:164-166 | an empty list totals 0 in every month |
| Commands.AddCommand | index.js:44-67 | the empty-description error occurs exactly when the description is blank; the amount error occurs exactly when the description is not blank and the amount is NaN or not positive; on either error the list is unchanged; the add succeeds exactly when the description is not blank and the amount is a positive number; on success the id is getNewId's, it is fresh, and exactly one record is appended; the invariant is kept |
| Commands.DeleteCommand | index.js:89-106 | the id error occurs exactly when the id is NaN; not-found occurs exactly when no record has the id; the delete succeeds exactly when the id parses and some record carries it; on error the list is unchanged; on success exactly the first record with the id is removed; with a well-formed list the id is then gone |
| Commands.UpdateCommand | index.js:114-147 | `update` keeps the length of the list, leaves it unchanged on every error, and on success reports the id it was given; UpdateRejects and UpdateEditsFirstMatch state its outcomes in full |
| Commands.Edited | index.js:133-142 | an edit keeps id and date, replaces the description only when one is supplied, and replaces the amount only when one is given |
| Commands.UpdateRejects | index.js:114-143 | the four errors of `update` in the source's order: id NaN, id not found, blank supplied description, bad given amount; each occurs exactly under its condition; the update succeeds exactly when none of them applies; on each error the list is unchanged |
| Commands.UpdateEditsFirstMatch | index.js:122-145 | a successful update reports the id and edits only the first record with it, keeping its id and date and writing the supplied description and the given amount |
| Commands.SummaryCommand | index.js:153-172 | the month error occurs exactly when a month is given and it is NaN or outside 1..12; without a month the reported total is the sum of every amount, and with one it is the sum of the amounts of the records filtered to that month |
| CommandProperties.AddThenDeleteRestores | index.js:56-65 | deleting the record an add created succeeds and restores the list from before the add |
| CommandProperties.DeletedIdIsHandedOutAgain | index.js:35-37 | after an add and the deletion of the record it created, the next add hands out the same id again |
| CommandProperties.AddRaisesTotal | index.js:64 | a successful add raises the overall total by the amount added |
| CommandProperties.AddRaisesMonthTotal | index.js:60 | a successful add raises the total of the month written in the new record's `MM` field (today's month) by the amount, and no other month's total |
| CommandProperties.DeleteLowersTotal | index.js:103 | a successful delete lowers the overall total by the amount of the record removed |
| CommandProperties.UpdateShiftsTotal | index.js:142 | a successful update changes the overall total by the difference between the edited record's new and old amounts |
| CommandProperties.UpdateKeepsWellFormed | index.js:114-147 | every update outcome keeps the list's invariant, including positive amounts and descriptions that are not blank |
| CommandProperties.MonthlySummariesAddUp | index.js:157-171 | with readable dates, the summary without a month equals the sum of the twelve monthly summaries |
| ExpenseStore.Store.constructor | index.js:10-28 | the store starts with the list that loadExpenses returns |
| ExpenseStore.Store.Add | index.js:44-67 | running `add` step by step on a working copy leaves the outcome and stored list that AddCommand describes, and keeps the invariant |
| ExpenseStore.Store.Delete | index.js:89-106 | running `delete` step by step leaves the outcome and stored list that DeleteCommand describes, and keeps the invariant |
| ExpenseStore.Store.Update | index.js:114-147 | running `update` step by step, description first and then amount, leaves the outcome and stored list that UpdateCommand describes, and keeps the invariant |

## Left out

- Reading and writing `data.json` (index.js:10-33) is left out: file creation, JSON parsing, and the reset of a corrupt file. The store's contents are passed to the `Store` constructor, and saving is the assignment to `Store.expenses`.
- The `list` command (index.js:69-82) only prints, so it is not modelled.
- Console messages are not modelled. Each outcome is the `Failure` or success value that selects the message.
- Argument parsing by commander is left out, including required-option errors and help output. Each handler receives its options already parsed.
- `parseFloat` and `parseInt` are not modelled. Their result is a parameter: `None` for NaN, otherwise the number. Prefix parsing (`"12abc"` is 12) and `parseFloat` accepting `Infinity` are therefore not captured.
- Amounts and sums are exact reals. IEEE-754 rounding in `reduce` is not modelled.
- Ids are unbounded integers. JavaScript number precision above 2^53 is not modelled, and neither is the argument limit of `Math.max(...ids)` on very long lists.
- Dates.FormatDate requires a year in 0..9999. `toISOString` writes other years with a sign and six digits, and the model does not cover them.
- The clock is the parameter `today`, a UTC calendar date.
- Dates.MonthOf reads the month from the `MM` field of a date-only `YYYY-MM-DD` string, which is the only form the tool writes. It does not model how `new Date(text).getMonth()` differs from that field:
  - A hand-edited date whose day is past the month's end but no higher than 31, such as `2024-02-30`, rolls over into the next month (March) in `new Date`. A day of `00` or above 31, such as `2024-02-32`, gives an Invalid Date, which matches no month. The model keeps the `MM` month (February) in both cases.
  - Other forms that `new Date` accepts fall in no month in the model.
  - `new Date("YYYY-MM-DD")` is midnight UTC, while `getMonth` reads local time. In any time zone behind UTC, every record dated the 1st, including the ones the tool writes itself, is counted in the previous month by the source. The model always uses the `MM` field.
- `update` mutates the record object found by `find` in place. The model treats records as values: the edited record is written back at the index `findIndex` gives, which is the same record.

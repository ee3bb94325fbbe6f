# phdplan core, modelled in Dafny

phdplan is a small planning board. A FastAPI backend stores tasks
(`atividades`), weekly strategies, insights, users and plan shares. A
browser front end shows the tasks as a kanban board with filters, a table and
a calendar. Around them sit a few scripts:

- a spreadsheet importer;
- a duplicate remover;
- an ownership transfer;
- a desktop morning briefing;
- a console script that promotes a user to admin.

This project models the logic of that core as pure Dafny functions over
immutable records and proves what it promises.

- The database is a `Store` of row sequences (`Records`). Each row carries
  its id, its owner and its value.
- Every endpoint or script is a function from a store to a store, or to a
  failure code (`Wrappers.Outcome`).
- Ids the database would assign, the clock's "today", password hashing,
  environment variables and console answers are parameters.

The modules, one per file:

- `Calendar`: proleptic Gregorian dates, day indices, `AddDays`, and the
  `YYYY-MM-DD` text with its ordering.
- `IsoWeek`: the browser's `getWeekNumber`. It is proved equal to ISO 8601
  week numbering (section 3.2.2 of ISO 8601:2004).
- `JsNumber`: JavaScript `parseInt` (section 19.2.5 of ECMA-262), as the
  week-number and recurrence boxes use it.
- `Strings`, `Seqs`: Python/JavaScript string operations, filtering, and a
  stable sort.
- `Board`: the board filter `getFilteredTasks`, status normalisation,
  kanban columns and counts, the date display, the calendar cell and the
  insight list.
- `Recurrence`: the recurrence payload built by the task form.
- `Accounts`, `Api`: the endpoints of `backend/main.py`.
  - `Accounts`: register, admin user management.
  - `Api`: task reads with sharing, task create/update/delete, insight
    patch and conversion, plan sharing.
- `Dedup`: `remove_duplicates.py`.
- `Importer`: `importer.py`.
- `Briefing`: `startup_briefing.py`.
- `Transfer`: `transfer_data.py`.
- `DbConfig`: `database.py`.
- `AdminScript`: `tornar_admin.py`.

Behaviour of the code worth knowing:

- **Recurrence fields are not validated.** The task form sends whatever
  `parseInt` reads from the interval and day-of-month boxes, including a
  negative or null value. An empty weekday list is sent as the empty
  string.
- **The date filter and the week filter combine.** Both are applied
  (ANDed); the exact date does not replace the week filter.
- **`update_task` needs a description.** It validates the full
  `TaskCreate` body, so the drag-and-drop update, which sends only a
  status, is refused with 422 (`Api.StatusOnlyBodyRefused`).
- **`create_task` and `update_task` drop the recurrence.** `TaskCreate`
  has no recurrence fields, so a task stores none.
- **Deleting a user keeps their tasks.** Their tasks, strategies, insights
  and shares get a NULL owner instead of being deleted. This is what
  SQLAlchemy does to the children of a deleted parent when the relationship
  has no delete cascade.
- **Some statuses break the kanban.** The column lookup `cols[status]`
  also finds the names every JavaScript object inherits, such as
  `constructor` or `toString`. A task with such a status is not sent to
  "A fazer"; appending its card throws, and the counters are never
  written (`Board.CountColumns`).
- **A duplicate email fails the update.** `update_user` does not check
  whether a new email is already in use. The unique column then makes the
  commit fail, which the model records as 500.

## Model

| member | source | states |
|---|---|---|
| IsoWeek.WeekNumber | frontend/js/app.js:538-543 | every valid calendar date gets a week number from 1 to 53 |
| IsoWeek.WeekNumberIsIsoWeek | frontend/js/app.js:538-543 | the Thursday-based count equals ISO 8601 numbering stated independently: Monday-based weeks, week 1 holds January 4 of the Thursday's year |
| IsoWeek.IsoDay | frontend/js/app.js:540 | `getUTCDay() \|\| 7` is the ISO weekday, Monday 1 to Sunday 7 |
| IsoWeek.SameWeekSameNumber | frontend/js/app.js:539-542 | all seven days from a Monday to its Sunday get the Monday's week number |
| IsoWeek.SameMondaySameNumber | frontend/js/app.js:539-542 | two dates whose weeks start on the same Monday share their week number |
| IsoWeek.FirstMonday2024 | frontend/js/app.js:538-543 | 2024-01-01 is in week 1 |
| IsoWeek.LastSunday2023 | frontend/js/app.js:538-543 | 2023-12-31, a Sunday, is in week 52 |
| IsoWeek.UnixEpochIsThursday | frontend/js/app.js:540 | the day index agrees with JavaScript's weekday: 1970-01-01 is a Thursday |
| IsoWeek.AsWrittenAgreesFrom101 | frontend/js/app.js:539-541 | from year 101 on, the code as written (with `Date.UTC`'s two-digit-year rule) computes the ISO week |
| IsoWeek.AsWrittenNegativeWeek | frontend/js/app.js:539-541 | for 0100-01-01 the code as written gives -99085 where ISO gives week 53 |
| JsNumber.ParseDecimal | frontend/js/app.js:415 | `parseInt` of the decimal text of any integer, negative ones included, gives that integer back |
| JsNumber.EmptyIsNaN | frontend/js/app.js:415-416 | an empty box reads as NaN, so the week box is ignored |
| JsNumber.LettersAreNaN | frontend/js/app.js:415-416 | text that does not start with a digit reads as NaN |
| JsNumber.ZeroIsZero | frontend/js/app.js:415-416 | `0` reads as zero, which `if (num)` treats as no week |
| JsNumber.StopsAtNonDigit | frontend/js/app.js:415 | leading spaces are skipped and reading stops at the first non-digit |
| Calendar.IsoStringOrder | frontend/js/app.js:433-434 | comparing two `YYYY-MM-DD` texts with `<` is comparing the dates |
| Board.ByDateKeeps | frontend/js/app.js:402-404 | the date step keeps exactly the tasks dated on the chosen day, or all tasks when no day is chosen |
| Board.ByWeekKeeps | frontend/js/app.js:406-420 | the week step keeps exactly the dated tasks in the selected week, or all tasks when no week is selected |
| Board.ByStatusKeeps | frontend/js/app.js:428-430 | the status step drops exactly the tasks whose status equals an unchecked box's status |
| Board.ByLateKeeps | frontend/js/app.js:432-435 | the late step keeps exactly the dated, not-done tasks before today when the box is checked |
| Board.FilteredIsConjunction | frontend/js/app.js:394-438 | the chain of four filters equals one filter by the conjunction of the four tests |
| Board.FilteredSelects | frontend/js/app.js:394-438 | the result is an order-preserving subsequence of the tasks, holding exactly those that pass every control |
| Board.DefaultsShowAll | frontend/js/app.js:402-437 | the default controls return the tasks unchanged |
| Board.FilteredIdempotent | frontend/js/app.js:402-437 | filtering twice with the same controls is filtering once |
| Board.PreviousInWeekOne | frontend/js/app.js:408-411 | "previous week" while today is in week 1 selects week 0, so it shows nothing |
| Board.WeekNumberIgnored | frontend/js/app.js:414-418 | a typed week that reads as NaN or 0 turns the week filter off |
| Board.WeekNumberTyped | frontend/js/app.js:414-418 | a typed positive number selects that week, whatever the year |
| Board.LateIsTextOrder | frontend/js/app.js:433-434 | a task is late exactly when its date text is before today's and its status is not `Feito` |
| Board.FeitoBoxRemovesExactly | frontend/js/app.js:428-430 | unchecking only `Feito` removes exactly the tasks whose raw status is `Feito` |
| Board.NormalizeIdempotent | frontend/js/app.js:198-201 | normalising a normalised status changes nothing |
| Board.NormalizeAll | frontend/js/app.js:197-201 | loading rewrites each task's status and nothing else, in place |
| Board.NoLegacyAfterLoad | frontend/js/app.js:197-201 | no loaded task keeps a legacy status |
| Board.ColumnOfStatus | frontend/js/app.js:466-497 | `Feito` and `Concluído` land in Feito, `Fazendo` in Fazendo, an inherited `Object.prototype` name such as `constructor` in no column (its card throws), and every other status, `Pendente` and unknown ones included, in A fazer |
| Board.ColumnAfterNormalize | frontend/js/app.js:466-470 | a task lands in the same column whether or not its status was normalised first |
| Board.ColumnsPartition | frontend/js/app.js:466-497 | the three columns and the throwing cards together hold every filtered task exactly once, as a multiset |
| Board.CountColumns | frontend/js/app.js:456-500 | the render fails before writing the counters exactly when some task's status is an inherited name; otherwise the three counters are the column sizes and add up to the number of filtered tasks |
| Board.DisplayDateFields | frontend/js/app.js:481-485 | the shown date is day, month and year, zero-padded and separated by slashes |
| Board.DisplayDateInjective | frontend/js/app.js:482-484 | two different dates are never shown alike |
| Board.CellMatchesBoard | frontend/js/app.js:867 | a calendar cell lists the tasks the board shows for that day with `Feito` unchecked |
| Board.ListedInsights | frontend/js/app.js:596-597 | the insight list holds exactly the insights not yet converted, in table order |
| Recurrence.StoppedIff | frontend/js/app.js:774-780 | the submit stops without a request exactly for a new recurring task without an end date |
| Recurrence.RecurrenceSentIff | frontend/js/app.js:773-790 | recurrence fields are sent exactly for a new task with a recurrence type and an end date |
| Recurrence.StartDefaultsToDate | frontend/js/app.js:781-783 | the recurrence starts at the typed start, else at the task date (null when both are empty) |
| Recurrence.OnlyMatchingField | frontend/js/app.js:784-789 | only the field of the chosen recurrence type is sent |
| Recurrence.IntervalUnchecked | frontend/js/app.js:784 | any integer typed as the interval is sent as it is, negative and zero included |
| Recurrence.EmptyIntervalIsNull | frontend/js/app.js:784 | an empty interval box is sent as null |
| Recurrence.WeekdaysRoundTrip | frontend/js/app.js:786-789 | the weekday text splits back into the checked days in document order |
| Accounts.RegisterRefusesIff | backend/main.py:52-54 | registration fails with 400 exactly when the email is already registered |
| Accounts.RegisterThenTaken | backend/main.py:50-67 | a registered account is a plain user with the hashed password, and registering the same email again fails |
| Accounts.CreateUserIsRegister | backend/main.py:98-115 | an admin creates users as registration does; anyone else gets 403 |
| Accounts.UpdateUserGuards | backend/main.py:122-140 | 403 exactly for non-admins, 404 exactly for a missing user; an update without an email always succeeds |
| Accounts.EmptyUpdateKeeps | backend/main.py:131-136 | an update whose fields are all empty or missing changes nothing |
| Accounts.UpdateUserEffect | backend/main.py:122-140 | only the target user changes, and only in the truthy fields; the password is stored hashed; shares, tasks, strategies and insights are untouched |
| Accounts.DeleteUserGuards | backend/main.py:142-152 | 403 for non-admins, 404 for a missing id, 400 for deleting oneself, success otherwise |
| Accounts.DeleteUserEffect | backend/main.py:142-156 | exactly that user is removed and the other users keep their order; every task, strategy and insight it owned loses its owner with id and value kept, every other row is unchanged; its shares lose their owner; no row of any table is lost |
| Api.ReadTasksContents | backend/main.py:159-179 | admins read every task; others read exactly their own tasks and those of owners who shared with their email |
| Api.ReadTasksDescending | backend/main.py:177-178 | tasks come out by id, largest first |
| Api.NoSharesOwnOnly | backend/main.py:165-175 | without a share to one's email, a user sees exactly their own tasks |
| Api.ShareGrantsRead | backend/main.py:417-442 | after sharing, the addressee reads every task of the sharer |
| Api.ShareUpserts | backend/main.py:417-442 | an existing share of the caller to that email gets the new permission and every other share is unchanged; else exactly one share is appended; no other table changes |
| Api.ValidateFullBody | backend/main.py:181-198 | a body with every field set validates to exactly those fields |
| Api.ValidateDefaults | backend/main.py:181-186 | a body with only a description gets status `A fazer`, priority `Média`, category `Geral` |
| Api.StatusOnlyBodyRefused | backend/main.py:181-186 | a status-only update body lacks the required description and is refused with 422 |
| Api.CreateTaskEffect | backend/main.py:200-207 | creating appends exactly one row, owned by the caller, holding the validated body (its description, date and details as sent) and no recurrence, and nothing else changes; a body without description gets 422 |
| Api.ChangeGuards | backend/main.py:209-237 | update and delete both answer 404 for a missing id and 403 exactly for a non-admin non-owner |
| Api.UpdateTaskEffect | backend/main.py:209-224 | update overwrites every body field of that task, keeps its id and owner, and changes nothing else |
| Api.UpdateTaskIdempotent | backend/main.py:219-220 | repeating an update changes nothing more |
| Api.DeleteTaskEffect | backend/main.py:226-237 | delete removes exactly the task with that id; deleting it again gives 404 |
| Api.PatchOnlySent | backend/main.py:288-318 | an insight patch changes exactly the fields present in the request, the eleven detail fields each on its own |
| Api.PatchDetailsOnlySent | backend/main.py:294-318 | each of the eleven detail fields takes the sent value when sent and keeps its value otherwise |
| Api.PatchEmptyAndIdempotent | backend/main.py:316-318 | an empty patch changes nothing, and patching twice is patching once |
| Api.UpdateInsightEffect | backend/main.py:307-322 | only that insight changes, by the patch; tasks are untouched |
| Api.ConvertEffect | backend/main.py:373-410 | conversion appends one task owned by the caller, `A fazer`/`Média`, dated the planned date or today, with the insight's description, category and details and no recurrence; the insight becomes `Convertido` and nothing else in the insights changes; users, shares and strategies are untouched |
| Api.ConvertTwice | backend/main.py:373-410 | nothing stops converting the same insight again, which adds a second task |
| Dedup.FindDuplicates | backend/remove_duplicates.py:21-54 | for each key the smallest id is kept and every other id of the key is collected once; the count is rows minus keys |
| Dedup.UniqueKeyKept | backend/remove_duplicates.py:38-54 | a task whose key no other task has is never deleted |
| Dedup.OrderIndependent | backend/remove_duplicates.py:24-54 | the kept and deleted ids do not depend on the order the tasks are read in |
| Dedup.Batches | backend/remove_duplicates.py:58-62 | every batch has between 1 and `batch_size` ids |
| Dedup.BatchesFlatten | backend/remove_duplicates.py:58-62 | the batches, concatenated, are the deletion list |
| Dedup.DeleteBatchesAll | backend/remove_duplicates.py:60-64 | deleting batch after batch deletes exactly the ids of all batches |
| Dedup.LeftAreKept | backend/remove_duplicates.py:38-64 | the tasks left are exactly those whose id is kept for their key |
| Dedup.OnePerKeyLeft | backend/remove_duplicates.py:21-64 | after the batches of 100, exactly one task per key is left, the one with the smallest id |
| Importer.SkipIffNoDate | backend/importer.py:76-81 | a plan row gives no task exactly when its date is empty or missing, stops the import exactly when its date is text `to_datetime` cannot read, and otherwise gives a task with the date read; a date cell always gives a task |
| Importer.StatusCases | backend/importer.py:83-87 | status is `Feito` exactly when the lower-cased text is a done word, else `A fazer` |
| Importer.StatusOkCapitals | backend/importer.py:86-87 | `OK` marks a task done |
| Importer.StatusConcluidoAccented | backend/importer.py:86-87 | `Concluído` marks a task done |
| Importer.StatusOtherWord | backend/importer.py:84-87 | `Pendente` leaves a task to do |
| Importer.DescricaoFallback | backend/importer.py:90-95 | the description is "O que" when it has a non-blank character, else the action description |
| Importer.DefaultsForMissingColumns | backend/importer.py:101-102 | `Média`/`Geral` fill in for missing columns only; an empty priority cell becomes `nan` |
| Importer.FinanceiroAlwaysDropped | backend/importer.py:138-143 | the Financeiro segment is always dropped, since its label contains `nan` |
| Importer.OtherAnglesKept | backend/importer.py:138-143 | the other two segments are kept exactly when their cell text has no `nan` in any case |
| Importer.DescricaoDetalhadaSegments | backend/importer.py:138-143 | the detailed description joins the kept Negociação and Gestão segments with ` \| ` in that order |
| Importer.EmptyAnglesEmptyDescription | backend/importer.py:138-143 | a theme row with empty angle cells gets an empty description |
| Importer.StrategyWeek | backend/importer.py:128-148 | a strategy's week starts on the date `to_datetime` reads from the start cell and ends six days later |
| Importer.ImportRowsAborts | backend/importer.py:68-164 | a sheet yields no records exactly when some row stops the import |
| Importer.ImportRowsContents | backend/importer.py:68-119 | otherwise there is one record per non-skipped row, in row order |
| Importer.DropDuplicatesSpec | backend/importer.py:59-61 | deduplicated rows hold every distinct row exactly once |
| Importer.DropDuplicatesIdempotent | backend/importer.py:61 | dropping duplicates twice is dropping them once |
| Importer.ImportEffect | backend/importer.py:46-164 | a row that stops the import, in either sheet, leaves both tables empty; otherwise task i is the i-th imported row of the deduplicated plan and strategy i the i-th imported theme row, with consecutive ids, all owned by the one owner; users, shares and insights are untouched |
| Briefing.TodayTasks | automation/startup_briefing.py:49 | exactly the tasks dated today, in table order |
| Briefing.BriefingSpec | automation/startup_briefing.py:49-58 | the briefing is a permutation of today's tasks, sorted by rank, keeping table order within a rank |
| Briefing.AltaFirst | automation/startup_briefing.py:57-58 | every `Alta` task comes before every task of another priority |
| Briefing.ColourFollowsRank | automation/startup_briefing.py:65 | red exactly for rank 0; the `Média`/`Media` ranks are orange and `Baixa` green |
| Briefing.MediaTextOrangeButLast | automation/startup_briefing.py:57-65 | an unknown priority that mentions `Média` is orange yet sorts last |
| Transfer.TransferEffect | backend/transfer_data.py:25-43 | every row of user 1 goes to user 2; other rows and all values and ids stay; nothing is added or removed |
| Transfer.MissingUserChangesNothing | backend/transfer_data.py:15-21 | if either user is missing nothing changes |
| Transfer.TransferIdempotent | backend/transfer_data.py:25-43 | a second run changes nothing |
| Strings.ReplaceFirstAt | backend/database.py:22 | Python's `str.replace(old, new, 1)` replaces exactly the first occurrence and keeps the text around it |
| Strings.ReplaceFirstNone | backend/database.py:22 | without an occurrence, `replace` returns the text unchanged |
| DbConfig.RewriteIsSchemeSwap | backend/database.py:21-22 | a leading `postgres://` becomes `postgresql://` with the rest kept; other URLs are unchanged |
| DbConfig.RewriteSettles | backend/database.py:21-22 | the result never starts with `postgres://`, and rewriting again changes nothing |
| DbConfig.RewriteKeepsRest | backend/database.py:21-22 | the text after the scheme is preserved |
| DbConfig.SelectEngineCases | backend/database.py:13-23 | an unset or empty variable selects SQLite with `check_same_thread=False`; otherwise the rewritten URL with no connect arguments |
| DbConfig.SqliteFileInBaseDir | backend/database.py:15-17 | the SQLite file is `phdplan.db` in the backend directory |
| AdminScript.RunCases | tornar_admin.py:63-93 | the script promotes exactly when the URL and email have content and the stripped, lower-cased answer is a yes word; else it exits, 1 for an empty input |
| AdminScript.SpacedCapitalsConfirm | tornar_admin.py:89-91 | ` SIM ` confirms |
| AdminScript.NaoCancels | tornar_admin.py:89-93 | `não` cancels with status 0 |
| AdminScript.PromoteEffect | tornar_admin.py:25-28 | the update makes exactly the accounts with that email admins and reports how many |
| AdminScript.CapitalisedAccountNotPromoted | tornar_admin.py:74 | an account registered with an ASCII capital letter is never promoted, because the typed email is lower-cased |

## Left out

- Timezones: `new Date(t.data)` and `toISOString()` are taken in UTC; the
  browser's local-time getters are not modelled.
- Network, DOM, modals, `localStorage`, `Promise.all` loading and the
  optimistic drag-and-drop update with reload are not modelled; only the
  pure inputs and outputs of the board code are.
- The table view's sort comparator is left out; it compares NaN for
  undated tasks, so it is not a consistent order.
- The insight branch of the task form and the form's edit path are not
  modelled beyond "recurrence only for new tasks".
- JsNumber.ParseInt: the Unicode "Zs" spaces beyond U+00A0 are not counted as
  leading white space.
- Strings.Lower: lower-cases ASCII and Latin-1 letters only, not all of Unicode.
- Strings.Strip: strips ASCII white space only.
- An explicit JSON `null` for optional text fields, and null status,
  priority or category columns, are not modelled; fields are present or
  absent.
- Api.ReadTasksContents: states the contents for a page holding the whole
  visible list. Skip/limit paging is modelled as a slice, and negative
  values are not.
- Exceptions and SQLAlchemy sessions are not modelled. Each endpoint or
  script commits all of its changes or none. The transfer rollback is
  therefore the absence of any partial state.
- JWT tokens, login, password hashing (a parameter) and the `auth` module
  are left out.
- The read endpoints for strategies, insights and shares, and the Excel
  export, are not modelled. They are plain reads with no rule beyond
  ownership.
- The importer's creation of the default admin user and its copy of the
  Excel file are left out, because they are file and account plumbing.
- pandas parsing is not modelled beyond parsed cells (text, date or empty).
  Which texts `to_datetime` reads as dates is a parameter (`DateParser`); a
  text it reads as `NaT` is treated like one it refuses, which stops the
  import. The importer's clearing of the tables is a commit of its own.
- Importer.Get: a date cell prints as `YYYY-MM-DD 00:00:00`. Timestamp
  bounds and times of day are not modelled.
- The duplicate remover commits once per batch. The model deletes all the
  batches together, so an interruption between batches is not modelled.
- `tornar_admin.py` connection errors and their messages are not modelled.
- DbConfig.PathJoin: POSIX paths only; Windows drive letters are not
  modelled.
- The tkinter window and the browser launch of the briefing are not
  modelled.
- Dedup.BatchesFlatten: does not state the number of batches,
  ⌈n/100⌉.
- IsoWeek.WeekNumber: models the corrected computation. The code as
  written differs for years up to 100 (see Findings). The board's week
  filter (`Board.InWeek`, `Board.SelectedWeek`) uses this corrected number
  too, so for tasks or a today before year 101 it differs from the page.
- JsNumber.ParseInt: returns an exact integer. JavaScript returns a double,
  which is exact only up to 2^53 in magnitude and is Infinity from about
  309 digits on (sent as JSON `null`).
- JsNumber.ParseDecimal: holds for the exact integer above; for integers
  beyond 2^53 in magnitude the browser's double would round.
- Recurrence.IntervalUnchecked: the interval sent is the exact integer;
  beyond 2^53 in magnitude the browser would send a rounded number.

## Findings

| source | as written | input that shows it | evidently intended | confidence | as-written member | corrected member |
|---|---|---|---|---|---|---|
| frontend/js/app.js:539-541 | `Date.UTC(d.getFullYear(), …)` and `Date.UTC(d.getUTCFullYear(), 0, 1)` read years 0–99 as 1900–1999 | 0100-01-01: its Thursday is 0099-12-31, whose year start becomes 1999-01-01, giving week -99085 | the ISO week of the date, here week 53 of year 99 | only dates before year 101 are affected; not executed | IsoWeek.AsWrittenNegativeWeek | IsoWeek.WeekNumber |

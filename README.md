# housework-master, modelled in Dafny

housework-master keeps a household's recurring chores. A user owns **spaces**
(a kitchen, a bathroom). Each space holds **tasks** that recur every N days or
every N months. A task can be completed, which restarts its cycle from the
completion time. It can be postponed by one day, at most three times in a row.
A new space can be filled in one request from a catalogue of **task
templates**. The front end groups tasks by their period, shows a due-date
badge on each card, and asks for a motivational message on the due day or
later.

This project models the core of that system:

- the task, space and template services over a database of three tables;
- the bulk creation of tasks from templates;
- the listing queries with filters, ordering and pagination;
- the grouping of tasks by period;
- Polish numeral agreement;
- the navigation's user names;
- the due-date badge;
- the decision logic of the hook that generates motivational messages.

Files, one module each:

| file | module | what it holds |
|---|---|---|
| `wrappers.dfy` | `Wrappers` | `Option`, `Result`, `Outcome` |
| `strings.dfy` | `Strings` | `split`, `trim`, decimal text, `slice`, `toUpperCase` as used by the source |
| `calendar.dfy` | `Calendar` | local dates and times; `setDate` / `setMonth` with roll-over; day differences |
| `recurrence.dfy` | `Recurrence` | the recurrence unit and `calculateDueDate` |
| `store.dfy` | `Store` | the rows, the table constraints, and the `Database` class holding the tables |
| `query.dfy` | `Query` | a query handed to the database, as a value, and the database's answer |
| `pagination.dfy` | `Pagination` | row ranges, page counts, the out-of-range rule |
| `task_lifecycle.dfy` | `TaskLifecycle` | completing and postponing one task, and runs of such steps |
| `provisioning.dfy` | `Provisioning` | the per-item loop of `bulkCreateFromTemplates`, as a fold |
| `tasks_service.dfy` | `TasksService` | `completeTask`, `postponeTask`, `createTask`, `bulkCreateFromTemplates`, `getTasks` |
| `spaces_service.dfy` | `SpacesService` | `listSpaces`, `createSpace`, `updateSpace`, `deleteSpace` |
| `task_templates_service.dfy` | `TaskTemplatesService` | `listTaskTemplates` and its sort-string parser |
| `recurrence_groups.dfy` | `RecurrenceGroups` | `groupTasksByRecurrence` and `formatRecurrenceTitle` |
| `pluralize.dfy` | `Pluralize` | `pluralize`, `pluralizeDays`, `pluralizeMonths` |
| `navigation.dfy` | `Navigation` | `getInitials`, `getGreetingName`, `getDisplayName`, `getGreeting` |
| `due_badge.dfy` | `DueBadge` | the `formatDate` badge of `TaskCard` |
| `auto_generate.dfy` | `AutoGenerate` | the helpers and state of `useAutoGenerateMotivationalMessage` |

The services change the database, so each is a method on a `Database` object.
The object's fields are the `spaces`, `tasks` and `templates` maps, the set of
space-type codes, and the next free row id. Every method keeps `Valid()`.
That invariant holds two kinds of facts. Three of them are constraints the
database enforces, as the source's error handling shows:

- the pair (user, space name) is unique (the 23505 handling of `createSpace`);
- the pair (space, task name) is unique (the 23505 handling of `createTask`);
- every task's space exists (the foreign key whose cascade delete `deleteSpace` relies on).

The others are rules the services keep by how they write, not table
constraints; the model proves that every service keeps them:

- rows sit under their own ids;
- a task's space belongs to the task's own user;
- the postponement counter stays within 0..3.

The services also run queries that the database evaluates: filters, orders
and a row range. For those, the model builds the query as a `Select` value
and takes the database's answer (rows, error flag, exact count) as an input.
A failed read or write is also an input: a `Fault` value chosen by the caller.

Dates are local calendar dates plus a time of day. `DayNumber` counts days
from 1970-01-01 in the proleptic Gregorian calendar. `setDate(getDate() + n)`
moves the day number by n. `setMonth(getMonth() + n)` keeps the day of the
month and rolls over into the next month when that day does not exist.

## Model

| member | source | states |
|---|---|---|
| Strings.Split | src/components/navigation/utils.ts:27 | `split(sep)` gives at least one part and no part contains the separator |
| Strings.JoinSplit | src/lib/services/taskTemplatesService.ts:30 | joining the parts of a split with the separator gives back the string |
| Strings.SplitJoin | src/lib/services/taskTemplatesService.ts:30 | splitting a join of separator-free parts gives back the parts |
| Strings.SplitFirst | src/components/navigation/utils.ts:27 | the first part is a prefix of the string, followed by the separator when it is shorter |
| Strings.SplitLast | src/components/navigation/utils.ts:12 | the last part is a suffix of the string, preceded by the separator when it is shorter |
| Strings.FirstSeparatorAt | src/components/navigation/utils.ts:30 | the first separator is at the index where it first occurs |
| Strings.TrimStart | src/lib/services/spacesService.ts:41 | removes exactly the leading white space: a suffix that starts with a non-space |
| Strings.TrimEnd | src/lib/services/spacesService.ts:41 | removes exactly the trailing white space: a prefix that ends with a non-space |
| Strings.Trim | src/lib/services/spacesService.ts:41-42 | `trim()` is a slice of the input with only white space before and after it, has no white space at either end, and is empty exactly when the input is all white space |
| Strings.TrimIdempotent | src/lib/services/taskTemplatesService.ts:30 | trimming twice is trimming once |
| Strings.TrimPadded | src/lib/services/spacesService.ts:41-42 | one white-space character on each side does not change the trimmed text |
| Strings.NatToString | src/components/TaskCard.tsx:33 | `${n}` is non-empty decimal digits with no leading zero |
| Strings.ParseNatToString | src/lib/utils/groupTasksByRecurrence.ts:69 | `parseInt` of `${n}` is n |
| Strings.NatToStringInjective | src/lib/utils/groupTasksByRecurrence.ts:35 | different numbers have different decimal texts |
| Strings.IndexOf | src/components/navigation/utils.ts:30 | the index found holds the character and no earlier position does |
| Strings.SplitAtSeparator | src/components/navigation/utils.ts:11 | a text holding the separator splits into at least two pieces |
| Strings.Prefix | src/components/navigation/utils.ts:14 | `slice(0, n)` is a prefix of length min(n, length) |
| Strings.Upper | src/components/navigation/utils.ts:17 | `toUpperCase()` keeps the length and maps each character |
| Calendar.DaysInMonth | src/lib/services/tasksService.ts:590 | every month has 28 to 31 days |
| Calendar.Normalize | src/lib/services/tasksService.ts:588 | the date an out-of-range day rolls to is day d of the month counted from its first day |
| Calendar.RollIntoNextMonth | src/lib/services/tasksService.ts:590 | a day beyond the month's length rolls into the next month by the excess |
| Calendar.DayNumberMonotone | src/components/TaskCard.tsx:22 | an earlier date has a smaller day number |
| Calendar.DayNumberInjective | src/components/TaskCard.tsx:22 | different dates have different day numbers |
| Calendar.AddDays | src/lib/services/tasksService.ts:588 | `setDate(getDate() + n)` moves the day number by exactly n |
| Calendar.AddDaysAdd | src/lib/services/tasksService.ts:588 | moving by a days and then by b days is moving by a + b days |
| Calendar.AddDaysZero | src/lib/services/tasksService.ts:588 | moving by zero days changes nothing |
| Calendar.AddMonths | src/lib/services/tasksService.ts:590 | `setMonth(getMonth() + n)` reaches month index + n with the same day, or rolls into the next month by the excess days |
| Calendar.StartOfDay | src/components/TaskCard.tsx:18 | `setHours(0, 0, 0, 0)` keeps the date, and the instant lies within that day |
| Calendar.AddDaysAt | src/lib/services/tasksService.ts:652 | adding n days keeps the time of day and adds n × 86 400 000 ms |
| Calendar.AddMonthsAt | src/lib/services/tasksService.ts:113 | `setMonth` keeps the time of day |
| Calendar.DiffDays | src/components/TaskCard.tsx:22 | the floored day difference of two local midnights is the difference of day numbers |
| Recurrence.CalculateDueDate | src/lib/services/tasksService.ts:107-117 | the due date is the reference plus N days or N months, at the same time of day |
| Recurrence.DaysPeriodsAdd | src/lib/services/tasksService.ts:107-117 | two periods of days in a row equal one period of their sum |
| Recurrence.MonthEndRollsOver | src/lib/services/tasksService.ts:113 | 31 January 2024 plus one month is 2 March 2024 |
| Store.Summary | src/lib/services/tasksService.ts:231-236 | the nested space of a task carries the space's id, name, type and icon |
| Store.OwnedTask | src/lib/services/tasksService.ts:571-580 | a task is found exactly when it exists and belongs to the user |
| Store.OwnedSpace | src/lib/services/tasksService.ts:484-493 | a space is found exactly when it exists and belongs to the user (the same lookup as OwnedTask, on the spaces table) |
| Store.InsertTaskKeepsTables | src/lib/services/tasksService.ts:499-512 | inserting a task under a free (space, name) keeps every table constraint |
| Store.ReplaceTaskKeepsTables | src/lib/services/tasksService.ts:594-603 | updating a task's cycle fields keeps every table constraint |
| Store.Database.InsertTask | src/lib/services/tasksService.ts:499-512 | an insert under the next id, with a free (space, name), keeps the invariant, adds exactly that row and advances the allocator |
| Store.Database.ReplaceTask | src/lib/services/tasksService.ts:594-603 | an update that keeps a task's space, owner and name keeps the invariant and changes only that row |
| Store.InsertSpaceKeepsTables | src/lib/services/spacesService.ts:153-157 | inserting a space under a free (user, name) keeps every table constraint |
| Store.ReplaceSpaceKeepsTables | src/lib/services/spacesService.ts:227-232 | renaming a space to a name free for its user keeps every table constraint |
| Store.TasksOutside | src/lib/services/spacesService.ts:273-276 | the cascade keeps exactly the tasks of other spaces, unchanged |
| Store.DeleteSpaceKeepsTables | src/lib/services/spacesService.ts:273-276 | deleting a space with its tasks keeps every table constraint |
| Store.Database.constructor | src/lib/services/spacesService.ts:142-151 | a fresh database has no spaces or tasks, the given catalogue, and satisfies the invariant |
| Query.From | src/lib/services/spacesService.ts:35-37 | a new query has no filter, no order and no range |
| Query.OrderOf | src/lib/services/spacesService.ts:32 | the column is the longest '.'-free prefix, that is the text before the first '.' (or the whole text), ascending exactly when the direction is `asc` |
| Pagination.TotalPages | src/lib/services/tasksService.ts:347 | there is always at least one page |
| Pagination.OutOfRange | src/lib/services/tasksService.ts:350-352 | a page is refused only when there are rows and it is not the first page |
| Pagination.TotalPagesIsCeiling | src/lib/services/tasksService.ts:347 | `Math.ceil(total / limit) \|\| 1` is at least 1, is 1 for no rows, and is the least page count covering all rows |
| Pagination.OutOfRangeIffStartsPastEnd | src/lib/services/tasksService.ts:350-352 | a page is refused exactly when there are rows and its range starts past the last one |
| Pagination.EmptyNeverOutOfRange | src/lib/services/spacesService.ts:66 | with no rows every page is accepted and there is one page |
| Pagination.RangeIsOnePage | src/lib/services/tasksService.ts:333-335 | a range holds `limit` rows and the next page starts right after it |
| TaskLifecycle.AfterCompletion | src/lib/services/tasksService.ts:583-603 | completion records the time, resets the counter, makes the task pending, and sets the due date to the completion time plus the period: N days later by day number, or N months later with the month-end roll-over, at the same time of day |
| TaskLifecycle.AfterPostponement | src/lib/services/tasksService.ts:650-661 | postponement adds one to the counter, marks the task postponed, and sets the due date to exactly one day after now |
| TaskLifecycle.Apply | src/lib/services/tasksService.ts:644-646 | a postponement is refused exactly when the counter has reached 3; completion is always accepted |
| TaskLifecycle.ApplyKeepsCount | src/lib/services/tasksService.ts:644 | one step keeps the counter within 0..3 |
| TaskLifecycle.RunKeepsCount | src/lib/services/tasksService.ts:644 | any run of steps keeps the counter within 0..3 |
| TaskLifecycle.RunSnoc | src/lib/services/tasksService.ts:625-669 | a run is its prefix's run followed by one step, with a refused step leaving the task as it was |
| TaskLifecycle.RunCount | src/lib/services/tasksService.ts:598 | after any run the counter is the number of postponements since the last completion, capped at 3 |
| TaskLifecycle.CompletionForgetsCycle | src/lib/services/tasksService.ts:596-601 | completion does not depend on the old due date, status or counter |
| TaskLifecycle.PostponeIgnoresOldDueDate | src/lib/services/tasksService.ts:650-652 | postponement counts from today, not from the old due date |
| TaskLifecycle.FourthPostponementRefused | src/lib/services/tasksService.ts:644-646 | from a fresh cycle three postponements pass and the fourth is refused |
| Provisioning.ProvisionAll | src/lib/services/tasksService.ts:147-251 | one result per item in input order; earlier results and rows stay as they were; ids stay below the allocator |
| Provisioning.ItemAppendsOne | src/lib/services/tasksService.ts:147-251 | each item appends exactly one result, and a failed item writes nothing |
| Provisioning.ItemOutcome | src/lib/services/tasksService.ts:150-250 | per item: 404 `template_not_found`, 500 `internal_error`, 409 `duplicate_task` or 201 with the task, each exactly under its condition; overrides win over template defaults |
| Provisioning.ResultOfItem | src/lib/services/tasksService.ts:147-251 | the k-th result is what item k gives on the state left by the items before it |
| Provisioning.PriorStep | src/lib/services/tasksService.ts:147-251 | the state after k + 1 items is item k processed on the state after k items |
| Provisioning.CreatedRowsPersist | src/lib/services/tasksService.ts:176-238 | every task reported as created is in the table at the end |
| Provisioning.NewRowIsFresh | src/lib/services/tasksService.ts:176-189 | a created task gets the next id and is the only row added |
| Provisioning.ProvisionKeepsTables | src/lib/services/tasksService.ts:147-251 | the batch keeps every table constraint |
| Provisioning.ItemKeepsTables | src/lib/services/tasksService.ts:150-250 | one item keeps every table constraint |
| Provisioning.NoItemsNoResults | src/lib/services/tasksService.ts:147 | an empty batch changes nothing |
| TasksService.CompleteTask | src/lib/services/tasksService.ts:563-609 | unknown or foreign task: not found, nothing written; write failure: nothing written; otherwise only that task changes, to its completed form, due one period (days or months) after the completion time |
| TasksService.PostponeTask | src/lib/services/tasksService.ts:625-669 | not found, then the limit of 3, then write failure, each leaving the table unchanged; otherwise only that task changes, to its postponed form |
| TasksService.CreateTask | src/lib/services/tasksService.ts:476-547 | each error exactly under its condition and with no write; with no fault, an owned space and a free name it succeeds, with one new pending row with the next id, its due date computed from now, and the space's summary |
| TasksService.CreateFromTemplate | src/lib/services/tasksService.ts:150-250 | one pass of the loop appends the result and makes the write that the per-item step of the fold gives, and keeps the invariant |
| TasksService.BulkCreateFromTemplates | src/lib/services/tasksService.ts:127-254 | a missing or foreign space fails the whole request with no write; otherwise the loop's results and table are those of the per-item fold |
| TasksService.TaskOrders | src/lib/services/tasksService.ts:318-330 | the recurrence sorts order by unit, then by value, in one direction; any other sort is one column and direction |
| TasksService.FilterTasks | src/lib/services/tasksService.ts:295-315 | the filters are the user, and each given space, status and non-empty date bound, and nothing else |
| TasksService.SortTasks | src/lib/services/tasksService.ts:318-330 | the query's orders become the sort's clauses and nothing else changes |
| TasksService.PageSize | src/lib/services/tasksService.ts:276-281 | the page size is 20 when no limit is given, otherwise the limit capped at 100 |
| TasksService.GetTasks | src/lib/services/tasksService.ts:265-393 | defaults page 1, limit 20, sort `recurrence.asc`; limit capped at 100; range of that page; error on failure; page refused exactly when out of range; otherwise the rows with their page data |
| SpacesService.SearchFilter | src/lib/services/spacesService.ts:41-43 | a name filter is added exactly when the trimmed search is non-empty, matching it anywhere in the name |
| SpacesService.BlankSearchIgnored | src/lib/services/spacesService.ts:41 | a search of only white space adds no filter |
| SpacesService.SearchIgnoresSurroundingSpace | src/lib/services/spacesService.ts:42 | spaces around the search do not change the filter |
| SpacesService.ListSpaces | src/lib/services/spacesService.ts:25-93 | user filter plus the search filter, one order, the page's range; error on failure; page refused exactly when out of range; otherwise the rows with their page data |
| SpacesService.CreateSpace | src/lib/services/spacesService.ts:135-166 | an unknown given type is refused with its code before any write; a name taken by the same user is a duplicate; a write failure after an accepted type is a database error; with none of these it succeeds with one new row under the next id |
| SpacesService.UpdateSpace | src/lib/services/spacesService.ts:209-243 | ownership first; a name taken by another space of the user is a duplicate reported under the name or `unknown`; a write failure is a database error; with none of these it succeeds and only the given fields change |
| SpacesService.DeleteSpace | src/lib/services/spacesService.ts:255-281 | ownership first, then the write failure; with no fault and an owned space it succeeds, and the space and exactly its tasks are gone |
| TaskTemplatesService.SortParts | src/lib/services/taskTemplatesService.ts:30 | one trimmed part per comma-separated piece of the sort string |
| TaskTemplatesService.TrimEach | src/lib/services/taskTemplatesService.ts:30 | one part per piece, each the piece trimmed |
| TaskTemplatesService.ClauseOf | src/lib/services/taskTemplatesService.ts:32-36 | a part gives a clause exactly when both field and direction are non-empty, ascending only for `asc` |
| TaskTemplatesService.ClausesAppend | src/lib/services/taskTemplatesService.ts:32-37 | the clauses of two runs of parts are the first run's clauses followed by the second's |
| TaskTemplatesService.ClausesAtMostParts | src/lib/services/taskTemplatesService.ts:32-37 | there are never more clauses than parts |
| TaskTemplatesService.PartWithoutDirectionSkipped | src/lib/services/taskTemplatesService.ts:34 | a part without a direction, or without a field, adds no clause |
| TaskTemplatesService.OtherDirectionDescends | src/lib/services/taskTemplatesService.ts:35 | `field.dir` orders by field, ascending only when dir is `asc` |
| TaskTemplatesService.PartsAreTrimmed | src/lib/services/taskTemplatesService.ts:30 | spaces around a part do not matter |
| TaskTemplatesService.SortPartsOfJoin | src/lib/services/taskTemplatesService.ts:30 | comma-joined trimmed parts are read back as written |
| TaskTemplatesService.ApplySortParts | src/lib/services/taskTemplatesService.ts:32-37 | the loop appends the clauses of the parts in order and changes nothing else |
| TaskTemplatesService.TemplatesQuery | src/lib/services/taskTemplatesService.ts:19-37 | the query reads `task_templates`, filters on the space type only for a non-empty one, has no range, and orders by the clauses of the sort string |
| TaskTemplatesService.ListTaskTemplates | src/lib/services/taskTemplatesService.ts:12-59 | the space-type filter only for a non-empty type; the clauses of the given or default sort; error on failure, else the rows |
| RecurrenceGroups.UnitText | src/lib/utils/groupTasksByRecurrence.ts:35 | the unit's text is `days` exactly for days |
| RecurrenceGroups.MonthTitleDisagrees | src/lib/utils/groupTasksByRecurrence.ts:24 | the heading as written for two months is "Co 2 miesiąc", where `pluralizeMonths(2)` gives "miesiące" |
| RecurrenceGroups.TitleNounAgrees | src/lib/utils/groupTasksByRecurrence.ts:14-25 | with the correction, every heading that spells out a count ends with the noun form `pluralize` gives for it |
| RecurrenceGroups.FormatRecurrenceTitle | src/lib/utils/groupTasksByRecurrence.ts:14-25 | the heading as written: "Codziennie", "Co tydzień", "Co 2 tygodnie" and "Co miesiąc" for the four named periods; "Co N " followed by `pluralizeDays(N)` for every other day count N except −1, and "Co N " followed by the singular `pluralizeMonths(1)` for every month count other than 1 |
| RecurrenceGroups.HeadingsDistinguishPeriods | src/lib/utils/groupTasksByRecurrence.ts:14-25 | two positive periods with the same heading as written are the same period |
| RecurrenceGroups.RecurrenceTitle | src/lib/utils/groupTasksByRecurrence.ts:14-25 | the corrected heading equals the heading as written for every day count, and for months exactly when the count is ±1 |
| RecurrenceGroups.RecurrenceKey | src/lib/utils/groupTasksByRecurrence.ts:35 | the key of a period with a non-negative value splits at '-' into exactly the unit text and the value's digits |
| RecurrenceGroups.CompareKeys | src/lib/utils/groupTasksByRecurrence.ts:59-70 | the comparator gives 0 only to keys with the same unit part |
| RecurrenceGroups.MembersHaveTheKey | src/lib/utils/groupTasksByRecurrence.ts:34-42 | a group's list holds exactly the tasks with its key |
| RecurrenceGroups.Members | src/lib/utils/groupTasksByRecurrence.ts:41 | a key's list is drawn from the tasks and is never longer than them |
| RecurrenceGroups.GroupsOf | src/lib/utils/groupTasksByRecurrence.ts:47-56 | one group per key of the map |
| RecurrenceGroups.FirstKeys | src/lib/utils/groupTasksByRecurrence.ts:37-39 | the map's keys are distinct |
| RecurrenceGroups.FirstKeysAreTheKeys | src/lib/utils/groupTasksByRecurrence.ts:34-42 | a key is in the map exactly when some task has it |
| RecurrenceGroups.MembersOfKnownKey | src/lib/utils/groupTasksByRecurrence.ts:48 | every key in the map has a first task |
| RecurrenceGroups.UnseenKeyHasNoMembers | src/lib/utils/groupTasksByRecurrence.ts:37-39 | a key not yet in the map has no tasks so far |
| RecurrenceGroups.CollectStep | src/lib/utils/groupTasksByRecurrence.ts:34-42 | one more task adds its key to the map once, on first sight, and joins only its own key's list |
| RecurrenceGroups.CollectByKey | src/lib/utils/groupTasksByRecurrence.ts:32-42 | the first loop leaves the keys in order of first appearance, each with exactly its tasks in list order |
| RecurrenceGroups.BuildGroups | src/lib/utils/groupTasksByRecurrence.ts:45-56 | the second loop builds one group per key, in key order, titled after its first task |
| RecurrenceGroups.GroupTasksByRecurrence | src/lib/utils/groupTasksByRecurrence.ts:31-72 | the result is the key-ordered groups, sorted by the comparator |
| RecurrenceGroups.Insert | src/lib/utils/groupTasksByRecurrence.ts:59-70 | an insertion step adds exactly the one group |
| RecurrenceGroups.SortGroups | src/lib/utils/groupTasksByRecurrence.ts:59-70 | the sort is a permutation of the groups |
| RecurrenceGroups.KeyParts | src/lib/utils/groupTasksByRecurrence.ts:60-61 | `split("-")` of a unit text, '-', and a run of digits gives back the unit text and the digits |
| RecurrenceGroups.CompareKeysMeaning | src/lib/utils/groupTasksByRecurrence.ts:59-70 | the comparator puts days before months, then compares the values |
| RecurrenceGroups.GroupCompare | src/lib/utils/groupTasksByRecurrence.ts:59-70 | on built groups the comparator puts days before months, then compares the first tasks' values; equal periods mean equal keys |
| RecurrenceGroups.GroupOrder | src/lib/utils/groupTasksByRecurrence.ts:59-70 | on the groups' keys the comparator is antisymmetric and transitive, and is zero only for equal keys |
| RecurrenceGroups.InsertOrdered | src/lib/utils/groupTasksByRecurrence.ts:59-70 | inserting a group with a new key keeps the list strictly ordered |
| RecurrenceGroups.SortOrders | src/lib/utils/groupTasksByRecurrence.ts:59-70 | well-formed groups with distinct keys come out strictly ordered |
| RecurrenceGroups.UnsortedWellFormed | src/lib/utils/groupTasksByRecurrence.ts:47-56 | every built group has the key of its first task, and the keys are distinct |
| RecurrenceGroups.GroupsAreOrdered | src/lib/utils/groupTasksByRecurrence.ts:58-70 | the returned groups are strictly ordered: days before months, ascending values within a unit |
| RecurrenceGroups.EachGroupIsItsKeysMembers | src/lib/utils/groupTasksByRecurrence.ts:31-72 | every returned group holds exactly its key's tasks, under the heading of the first of them |
| RecurrenceGroups.EachTaskInItsGroup | src/lib/utils/groupTasksByRecurrence.ts:31-72 | every task is in the returned group of its own key |
| RecurrenceGroups.TotalSort | src/lib/utils/groupTasksByRecurrence.ts:59-70 | sorting keeps the number of tasks over all groups |
| RecurrenceGroups.EveryTaskCounted | src/lib/utils/groupTasksByRecurrence.ts:34-42 | the map's lists together hold as many tasks as the input |
| RecurrenceGroups.GroupsCoverAllTasks | src/lib/utils/groupTasksByRecurrence.ts:31-72 | no task is lost or repeated: the group sizes add up to the number of tasks |
| Pluralize.Pluralize | src/lib/utils/pluralize.ts:10-28 | the result is one of the three given forms |
| Pluralize.PluralizeClasses | src/lib/utils/pluralize.ts:13-27 | singular exactly for ±1; the 2–4 form exactly for last digit 2–4 outside 12–14; the many form otherwise |
| Pluralize.SignIgnored | src/lib/utils/pluralize.ts:11 | a negative count agrees like its absolute value |
| Pluralize.PeriodicInHundreds | src/lib/utils/pluralize.ts:19-20 | apart from 1, agreement depends only on the last two digits |
| Pluralize.PluralizeDays | src/lib/utils/pluralize.ts:33-35 | "dzień" exactly for ±1, else "dni" |
| Pluralize.PluralizeMonths | src/lib/utils/pluralize.ts:40-42 | "miesiąc", "miesiące" and "miesięcy", each exactly for its class of counts |
| Pluralize.MonthExamples | src/lib/utils/pluralize.ts:40-42 | the forms for 1, −1, 2, 22, 104, 5, 12, 0, 11 and 21 months |
| Navigation.OuterPartsNonEmpty | src/components/navigation/utils.ts:10-12 | splitting a trimmed name of several words gives a non-empty first and last word |
| Navigation.FirstAndLastInitials | src/components/navigation/utils.ts:12 | initials of several words are two characters |
| Navigation.GetInitials | src/components/navigation/utils.ts:6-18 | at most two characters; without a name, the e-mail's first two, upper-cased |
| Navigation.InitialsOfSeveralWords | src/components/navigation/utils.ts:10-12 | for several words, the first letter of the trimmed name and the letter after its last space, upper-cased |
| Navigation.LastWordInitial | src/components/navigation/utils.ts:12 | the last word starts right after the last space of the trimmed name |
| Navigation.InitialsOfOneWord | src/components/navigation/utils.ts:14 | a one-word name gives the first two characters of the name as given, upper-cased |
| Navigation.GetGreetingName | src/components/navigation/utils.ts:23-31 | the name up to its first space, else the e-mail up to its first `@` |
| Navigation.GetDisplayName | src/components/navigation/utils.ts:36-38 | the full name when it is non-empty, else the e-mail |
| Navigation.GetGreeting | src/components/navigation/utils.ts:43-45 | "Witaj, " then the greeting name then "!" |
| Navigation.GreetingUsesFirstWord | src/components/navigation/utils.ts:27 | a user named "first rest" is greeted "Witaj, first!" |
| Navigation.GreetingFromEmail | src/components/navigation/utils.ts:30 | a user without a name is greeted by the local part of the e-mail |
| DueBadge.BadgeFor | src/components/TaskCard.tsx:24-33 | destructive, default, secondary and outline exactly for overdue, today, tomorrow and later |
| DueBadge.FormatDate | src/components/TaskCard.tsx:15-34 | the badge depends only on the day difference, not on the times of day |
| DueBadge.IsOverdue | src/components/TaskCard.tsx:37 | the destructive badge is shown exactly when the due day number is below today's |
| DueBadge.OverdueIffEarlierDay | src/components/TaskCard.tsx:37 | a card is overdue exactly when its due day is before today |
| DueBadge.OverdueLabelCarriesDays | src/components/TaskCard.tsx:25 | an overdue label is the number of days late followed by " dni temu" |
| DueBadge.FutureLabelCarriesDays | src/components/TaskCard.tsx:33 | a later label is "Za ", the number of days, then " dni" |
| DueBadge.TodayAndTomorrow | src/components/TaskCard.tsx:27-31 | due today at any time reads "Dzisiaj"; due tomorrow reads "Jutro" |
| AutoGenerate.GetDiffDaysFromToday | src/components/hooks/useAutoGenerateMotivationalMessage.ts:26-37 | a difference exactly when the date parses, equal to the difference of day numbers |
| AutoGenerate.IsAutoGenerateWindowOpen | src/components/hooks/useAutoGenerateMotivationalMessage.ts:40-46 | the window is open only for a due date that parses and whose day is today or earlier |
| AutoGenerate.WindowOpenIffDueByToday | src/components/hooks/useAutoGenerateMotivationalMessage.ts:40-46 | the window is open exactly when the due date parses and is today or earlier |
| AutoGenerate.WindowExamples | src/components/hooks/useAutoGenerateMotivationalMessage.ts:40-46 | open today and yesterday, closed tomorrow and without a date |
| AutoGenerate.DeriveToneByDueDate | src/components/hooks/useAutoGenerateMotivationalMessage.ts:48-74 | the tone is never neutral |
| AutoGenerate.PlayfulOnlyOnDueDay | src/components/hooks/useAutoGenerateMotivationalMessage.ts:48-74 | playful exactly on the due day, and then the window is open |
| AutoGenerate.IsMessageStale | src/components/hooks/useAutoGenerateMotivationalMessage.ts:76-87 | a missing message or one whose time does not parse is stale; otherwise it is stale exactly when it is at least 24 hours (the threshold) old |
| AutoGenerate.StalenessExamples | src/components/hooks/useAutoGenerateMotivationalMessage.ts:76-87 | an hour-old message is fresh; one 25 hours old, a missing one, or an unparsable one is stale |
| AutoGenerate.StaysStale | src/components/hooks/useAutoGenerateMotivationalMessage.ts:76-87 | once stale, a message stays stale |
| AutoGenerate.CanGenerate | src/components/hooks/useAutoGenerateMotivationalMessage.ts:112-135 | allowed exactly when enabled, with a task, in the window, after an empty or successful load, and with no message or a stale one |
| AutoGenerate.ErrorAfter | src/components/hooks/useAutoGenerateMotivationalMessage.ts:174-194 | no error exactly on 201; fixed texts for 404 and 429; a thrown error's own message |
| AutoGenerate.AutoGenerator.constructor | src/components/hooks/useAutoGenerateMotivationalMessage.ts:98-100 | not generating, no error, no attempt yet |
| AutoGenerate.AutoGenerator.TaskChanged | src/components/hooks/useAutoGenerateMotivationalMessage.ts:102-105 | a new task clears the error and the attempt time |
| AutoGenerate.AutoGenerator.MessageChanged | src/components/hooks/useAutoGenerateMotivationalMessage.ts:107-110 | a newer message clears the attempt time only |
| AutoGenerate.AutoGenerator.AutoTriggers | src/components/hooks/useAutoGenerateMotivationalMessage.ts:202-216 | generation starts by itself exactly when allowed and not yet attempted; the status test adds nothing |
| AutoGenerate.AutoGenerator.TriggerGenerate | src/components/hooks/useAutoGenerateMotivationalMessage.ts:137-200 | guards in order, with no request and no state change; a missing name sets its error; otherwise one request with the derived tone and length 150, then the attempt time, the error and the callback as the response says |

## Left out

- Supabase itself is not modelled: the network, SQL evaluation of filters, orders and ranges, and row timestamps (`created_at`, `updated_at`). A read or write failure is an input. A query's answer is an input.
- Generated ids are modelled as the next free natural number, not as UUIDs.
- `getTaskById` and `getSpaceById` are outside the modelled core.
- `TemplateNotFoundError` is declared in the source, but nothing throws it.
- The message texts of the service errors are not modelled. Error kinds and codes are.
- Time zones, daylight-saving shifts and ISO strings are not modelled. A `Date` is a local date plus a time of day, and `Date.now()` reads the same clock. Each operation takes `now` as a parameter. One `now` serves a whole bulk request.
- Recurrence.CalculateDueDate: the unit type has only days and months. So the source's fall-through for any other unit, which leaves the date unchanged, cannot occur.
- TasksService.CompleteTask: `completed_at` is an optional instant. An empty string, which the source treats as absent, is not a separate input.
- TasksService.BulkCreateFromTemplates: an exception inside an item is modelled as happening before that item writes anything. Which other unique violations map to 409 is folded into "name taken".
- TasksService.GetTasks: requires page ≥ 1 and limit ≥ 1, which the API's query schema guarantees. With a zero limit the source would divide by zero.
- SpacesService.ListSpaces: requires page ≥ 1 and limit ≥ 1, for the same reason.
- TasksService.GetTasks, SpacesService.ListSpaces and TaskTemplatesService.ListTaskTemplates: mapping rows to DTOs is the identity here.
- SpacesService.CreateSpace: an insert error other than a unique violation is the `DatabaseError` kind.
- Strings.IsWhitespace: the set is space, tab, CR, LF, vertical tab, form feed, no-break space (U+00A0), the byte-order mark (U+FEFF), and the line and paragraph separators (U+2028, U+2029). The other Unicode space separators that `trim()` removes (U+1680, U+2000–U+200A, U+202F, U+205F, U+3000) are not included.
- Navigation.GetInitials: a Dafny `char` is one Unicode character, while `[0]`, `slice(0, 2)` and `split` in JavaScript count UTF-16 code units. For a name or e-mail starting with a character outside the Basic Multilingual Plane (an emoji, say), the source takes half of a surrogate pair where the model takes the whole character, so the initials differ.
- Strings.UpperChar: only a–z is upper-cased. Polish and other non-ASCII letters are left as they are.
- RecurrenceGroups.ParseCount: parses the value part of a key. When that part has no digits, `parseInt` gives NaN; here it gives 0. Keys are built from positive integers, so that case does not occur.
- RecurrenceGroups.CompareKeys: a key with no `-` has no value part. The source reads `undefined` there; here it reads the empty string. Such keys are never built.
- RecurrenceGroups.GroupsAreOrdered: assumes positive recurrence values (`PositivePeriods`), which the request schemas enforce. A negative value's key splits into three parts in the source.
- DueBadge.FormatDate: the "Invalid Date" path of an unparsable `due_date` is not modelled. Due dates come from the database as valid timestamps.
- AutoGenerate.AutoGenerator.TriggerGenerate: an exception from `fetch` is taken to be an `Error` with a message. A thrown non-`Error` value, with its fallback text, is not modelled. The `onGenerated` callback is the `generated` result.
- React rendering, `useMemo` and `useCallback` caching, `console.error` logging, and the asynchrony of `fetch` (requests that overlap in time) are not modelled.
- The dashboard's task sections, the recurrence-editing modal, the motivational-message service and the authentication pages are outside the modelled core.

## Findings

| source | as written | input that shows it | evidently intended | confidence | as-written member | corrected member |
|---|---|---|---|---|---|---|
| src/lib/utils/groupTasksByRecurrence.ts:24 | every count of months other than 1 is followed by the singular "miesiąc" | a group of tasks every 2 months is headed "Co 2 miesiąc" | the noun agrees with the count, as the function's own description ("z poprawną odmianą") and `pluralizeMonths` in the same folder give it: "Co 2 miesiące", "Co 5 miesięcy" | medium, not executed | RecurrenceGroups.MonthTitleDisagrees | RecurrenceGroups.TitleNounAgrees |

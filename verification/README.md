# Wedding Mantra planner core, modelled in Dafny

Wedding Mantra is a single-page wedding planner. It keeps ceremonies, guests,
vendors, tasks and a budget in one in-memory object. It saves that object to
browser storage and renders it as cards and lists. This project models the
planner state and the arithmetic derived from it:

- the id-keyed add / edit / delete operations, which work the same way on all
  four collections;
- the two in-place toggles (a ceremony's checklist item, a task's `completed` flag);
- the whole-state transitions: load with back-filling, import with validation,
  clear-all and budget replacement;
- the checklist the ceremony form submits, with `done` flags carried over by position;
- the dashboard statistics, the committed budget, the remaining budget and the
  rounded utilisation percentage with its progress bar;
- the order in which tasks are displayed.

Records are JavaScript objects. They are modelled as `map<string, Value>`, so
the edit operation's `{...old, ...upd, id}` is Dafny's right-biased map union
followed by an update of `id`. A field read with `parseInt(x) || 0` counts a
stored number as itself and anything else as 0. A top-level field read with
`x || default` is an `Option` that is `None` when the field is absent or falsy.

Modules (one per concern of the source):

- `Wrappers` (wrappers.dfy): `Option`.
- `Records` (records.dfy): field values, truthiness, numeric reads and the spread-merge.
- `Collection` (collection.dfy): find / add / edit / delete on one collection, and unique ids.
- `Planner` (planner.dfy): the state, the per-kind operations, the toggles and the budget update.
- `Stats` (stats.dfy): guest and task counts, committed budget and the budget display.
- `Persistence` (persistence.dfy): load, export, import and clear-all.
- `TaskOrder` (task_order.dfy): the task display order.
- `ChecklistForm` (checklist_form.dfy): trimming, blank-line removal and `done` carry-over.

Two behaviours of the code deserve a note:

- A failed load does not build a fresh state. It keeps whatever state the planner
  had, and at start-up that is the empty state. `LoadData` takes the current state
  as a parameter, and `StartupFallback` states the start-up case.
- An import that lacks tasks or budget is installed as it is. This is logged under
  Findings, and the model's `Import` back-fills the missing fields.

## Model

| member | source | states |
|---|---|---|
| Records.Spread | app.js:265-269 | The merged record has the keys of both records plus `id`. Fields of the update override the old ones, untouched old fields survive, and `id` is the original id whatever the update carries. |
| Collection.FindIndex | app.js:263 | Returns -1 exactly when no record has the id. Otherwise it returns a position holding the id, with no earlier position holding it. |
| Collection.Add | app.js:292-298 | Appends exactly one record. The old records are an unchanged prefix. The new record carries the fresh id and every other field the caller supplied. |
| Collection.AddKeepsUnique | app.js:248-256 | Appending with an id no record carries keeps the collection's ids pairwise distinct. |
| Collection.Edit | app.js:262-274 | Same length. Only the first record with the id becomes the spread-merge, and every other position is unchanged. An unknown id leaves the sequence unchanged. No record's id changes. |
| Collection.EditKeepsUnique | app.js:300-312 | Editing keeps the ids pairwise distinct. |
| Collection.Delete | app.js:276-281 | The survivors are exactly the records whose id differs from the argument. |
| Collection.DeleteConcat | app.js:314-319 | Deleting from a concatenation deletes from each part and keeps the parts in order, so the relative order is preserved. |
| Collection.DeleteAbsent | app.js:344-349 | Deleting an id no record carries is a no-op. |
| Collection.DeleteIdempotent | app.js:375-380 | Deleting twice gives the same sequence as deleting once. |
| Collection.DeleteKeepsUnique | app.js:276-281 | Deleting keeps the ids pairwise distinct. |
| Planner.AddEntity | app.js:253-260 | Adding to any kind grows only that collection by one record, at the end, with the fresh id. A ceremony keeps its truthy checklist or gets an empty one, and a task always starts with `completed = false`. Guests (app.js:292-298) and vendors (app.js:322-328) are appended as supplied. The new record's keys are exactly the supplied ones plus `id`, `completed` for a task and `checklist` for a ceremony. |
| Planner.AddEntityKeepsUnique | app.js:352-359 | Adding to any kind with an id no record of that kind carries keeps that kind's ids pairwise distinct. |
| Planner.EditEntity | app.js:330-342 | Editing changes only the first matching record of the chosen kind, into the spread-merge. It is a no-op on an unknown id. Other kinds and the budget are unchanged. |
| Planner.DeleteEntity | app.js:344-349 | Deleting changes only the chosen kind. A record survives exactly when its id differs, and the survivors are the collection-level delete of that kind, so DeleteConcat gives their original order and count. |
| Planner.DeleteEntityIdempotent | app.js:375-380 | Deleting an id twice from the state equals deleting it once. |
| Planner.DeleteEntityAbsent | app.js:314-319 | Deleting an absent id leaves the state unchanged. |
| Planner.ToggleChecklistItem | app.js:283-289 | When the first ceremony with the id has a checklist with item `idx`, only that item's `done` is negated: same keys, same other fields, same text, same other items. Otherwise the state is unchanged. |
| Planner.ToggleChecklistItemTwice | app.js:283-289 | Toggling the same checklist item twice restores the state. |
| Planner.ToggleTask | app.js:382-390 | Only the first task with the id changes. Its `completed` becomes the boolean negation of its truthiness, and its other fields stay. An unknown id is a no-op. |
| Planner.FlipCompletedTwice | app.js:385 | Negating a boolean `completed` twice gives the task back unchanged. |
| Planner.ToggleTaskTwice | app.js:382-390 | Toggling a task twice restores the state when its `completed` holds a boolean. |
| Planner.UpdateBudget | app.js:393-397 | The budget becomes the supplied record and every collection is unchanged. |
| Stats.SumOf | app.js:598 | The sum of a numeric field over the records is non-negative when every value is. |
| Stats.Where | app.js:599-600 | The filter keeps exactly the records whose field equals the given string. |
| Stats.SumOfWhere | app.js:640-643 | Filtering and then summing equals the one-pass conditional sum. |
| Stats.SumWhereAtMostSum | app.js:598-601 | When every value is non-negative, a conditional sum lies between 0 and the full sum. |
| Stats.SumOfConcat | app.js:598 | The sum over a concatenation is the sum of the parts. |
| Stats.SumWhereConcat | app.js:641-643 | The conditional sum over a concatenation is the sum of the parts. |
| Stats.Incomplete | app.js:604 | The filter keeps exactly the tasks whose `completed` is falsy. |
| Stats.IncompleteCount | app.js:604 | The filtered length is the pending count, and pending plus completed tasks make up all tasks. |
| Stats.PendingUpdate | app.js:385 | Replacing one task changes the pending count only by the difference between the old and new task's contributions. |
| Stats.ConfirmedGuests | app.js:599-601 | Confirmed head count is the conditional sum over guests with status `confirmed`. With non-negative party sizes it lies between 0 and the total head count. |
| Stats.PendingTasks | app.js:604 | The pending count plus the completed count equals the number of tasks. |
| Stats.UpdateStats | app.js:596-612 | The five dashboard figures: guest sums, ceremony and vendor counts, and the pending tasks (at most the number of tasks). |
| Stats.ToggleTaskPending | app.js:382-390 | Toggling a found task moves it between pending and completed (pending ±1). An unknown id leaves the count unchanged. |
| Stats.CommittedBudget | app.js:664-670 | Committed = Σ ceremony budgets + Σ prices of vendors with status `booked`. It is non-negative when those values are. |
| Stats.AddCommitted | app.js:322-328 | Adding a ceremony commits its budget. Adding a booked vendor commits its price. Other additions change nothing. |
| Stats.RoundPercent | app.js:619 | The result is the integer nearest to 100·committed/total, with halves rounded up. |
| Stats.BudgetDisplay | app.js:615-660 | remaining = total − committed. The percentage is 0 when total ≤ 0 and rounded otherwise. The bar width is min(percentage, 100). The tone is red above 100 and amber above 80. The breakdown lines add up to the committed total. |
| Stats.RoundedAtLeast100 | app.js:619 | When committed exceeds a positive total, the rounded percentage is at least 100. |
| Stats.OverspentDisplay | app.js:618-630 | When overspent, the remainder is negative and the percentage is at least 100 and not clamped, while the bar is full width. |
| Stats.BudgetSpentIgnored | app.js:616-617 | Replacing the budget leaves the committed budget unchanged, the display reads the new total, and the stored `spent` never affects the display. |
| Stats.SampleBudget | app.js:664-670 | Ceremonies 50000 + 100000, a booked vendor at 150000 and a negotiating one at 500000 commit 300000. Against 2500000 that leaves 2200000 at 12%. |
| Persistence.Merge | app.js:72-78 | Present top-level fields are kept. Missing collections become empty and a missing budget becomes {0, 0}. |
| Persistence.LoadData | app.js:66-84 | A parsed document is merged. Nothing stored or an unreadable slot leaves the current state. A warning is shown exactly when the slot is unreadable. |
| Persistence.Export | app.js:1083 | The exported snapshot has every top-level field. |
| Persistence.ExportMergeInverse | app.js:1081-1096 | Merging an exported snapshot gives back the state. Exporting a merged complete document gives back the document. |
| Persistence.LoadAfterSave | app.js:87-97 | A saved state reloads unchanged and without a warning. |
| Persistence.StartupFallback | app.js:80-83 | At start-up, a missing or corrupt slot gives the empty state, so the planner counts as first-time. |
| Persistence.ImportAsWritten | app.js:1108-1113 | A document is installed exactly when it parses, has ceremonies, guests and vendors, and the user confirms. It is installed as it is. |
| Persistence.ImportAsWrittenInstallsIncomplete | app.js:1108-1116 | A document with only the three checked collections passes the check and is installed without tasks or budget. |
| Persistence.Import | app.js:1099-1128 | Unparseable or invalid input is reported and leaves the state unchanged. A declined confirmation leaves it unchanged too. Accepted input replaces all three checked collections, and tasks and budget are back-filled when absent. |
| Persistence.ImportMatchesAsWritten | app.js:1112-1113 | On complete documents, Import installs exactly what the source installs. |
| Persistence.ExportImportRoundTrip | app.js:1081-1113 | Importing an exported snapshot reproduces the exported state with no error. |
| Persistence.ClearAll | app.js:1131-1154 | With both confirmations, the four collections are empty and the budget is {total: 0, spent: 0}, so the first-time test holds. Otherwise the state is unchanged. |
| TaskOrder.Insert | app.js:568-571 | Inserting adds exactly one occurrence of the task (multiset). |
| TaskOrder.PrependSorted | app.js:569-570 | A task that may precede every task of a sorted list keeps it sorted when placed in front. |
| TaskOrder.InsertSorted | app.js:569-570 | Insertion into a list sorted by the comparator keeps it sorted. |
| TaskOrder.DisplayOrder | app.js:567-571 | The display order is a permutation of the tasks. Every incomplete task comes before every completed one, and due dates never decrease within a group. |
| ChecklistForm.TrimStart | app.js:813 | Drops a leading run of white space and nothing else. The result is a suffix that does not start with white space. |
| ChecklistForm.TrimEnd | app.js:813 | Drops a trailing run of white space and nothing else. The result is a prefix that does not end with white space. |
| ChecklistForm.LeadTrimStart | app.js:813 | Trimming the start removes exactly the leading white-space run. |
| ChecklistForm.TrimStartEnd | app.js:813 | Trimming both ends leaves the infix between the leading and trailing white-space runs. |
| ChecklistForm.Trim | app.js:813 | `trim()` keeps the infix after the leading white space. Everything before and after it is white space, and it neither starts nor ends with white space. |
| ChecklistForm.FormItems | app.js:810-816 | Each submitted item has non-blank text and is not done. There are at most as many items as input lines. |
| ChecklistForm.FormItemsConcat | app.js:811-816 | The items of consecutive input lines are the items of each part, in order. |
| ChecklistForm.FormItemsSingle | app.js:811-816 | One line yields its trimmed text as one undone item exactly when it is not blank. |
| ChecklistForm.CarryOver | app.js:821-825 | Same length and texts. Item i is done exactly when the edited ceremony's checklist has an item i that is done. |
| ChecklistForm.SubmittedChecklist | app.js:808-828 | When editing, done flags come from the first ceremony with the edited id. When adding, or when no ceremony has that id, every item is undone. |
| ChecklistForm.SameTextsKeepDone | app.js:818-826 | Resubmitting the same texts in the same order keeps every `done` flag. |

## Left out

- Rendering, templates, modals, notifications, the save indicator, `escapeHtml`,
  `showSection` and number formatting are presentation. The budget display is
  modelled only as the numbers and tone it shows.
- `localStorage`, `JSON.parse`/`JSON.stringify`, `FileReader`, `Blob` downloads,
  the service worker and the autosave timer are I/O. Load takes the slot's outcome
  (nothing, unreadable, parsed document) and Import takes the parse outcome. The
  JSON text round trip itself is not modelled.
- The `confirm` dialogs are user I/O. They arrive as boolean parameters of Import and ClearAll.
- `generateId` depends on the clock and randomness. The fresh id is a parameter,
  and the unique-id lemmas require it to be unused.
- `addSampleData` and `getDateAfterDays` are fixed seed content and clock arithmetic.
- `importData`'s early return on a missing file is a caller concern: Import starts from a parse outcome.
- Records.Value: `Num` holds an unbounded integer, while the source's numbers are IEEE
  doubles. The sums in `updateStats` and `calculateSpentBudget` are exact only below
  2^53, a fractional value such as 2.7 (which `parseInt` reads as 2) is not
  representable, and `parseInt(1e21)` is 1 rather than 10^21. The forms cap the
  inputs (app.js:915, 1013, 1060), so only hand-edited imports reach these cases.
- Records.NumOr0: `parseInt` of a string holding digits is read as 0, not as its
  number. The form converts numeric fields to numbers before storing them, so only
  hand-edited imports differ.
- The numeric-field conversion at the top of `handleFormSubmit` (`parseInt` on
  form strings) is left out for the same reason.
- Stats.RoundPercent: computed exactly. The source computes `spent / total * 100` in
  floating point, and rounds down where the exact value is a half but the double
  product lands just below it. For 23 committed of 40 the exact value is 57.5 and the
  model gives 58, while the double is 57.49999999999999 and the source shows 57.
- TaskOrder.DisplayOrder: the due-date comparison is a parameter `due` giving each
  task's timestamp. Invalid dates, where the source subtracts NaN, are not modelled.
  `completed` is compared by truthiness, whereas the source compares raw values
  with `!==`; the two agree whenever `completed` holds a boolean. Stability of the
  sort holds by construction but is not stated.
- Planner.ToggleChecklistItem: a checklist that is truthy but not a list is treated
  as absent. Item `done` flags are booleans.
- ChecklistForm.CarryOver: an existing checklist that is not a list is treated as
  absent, so its positions carry nothing over.
- Persistence.Doc: a present but truthy top-level field that is not an array (or
  not an object for the budget) is not representable. A collection of the wrong
  shape makes the source fail later, when it is rendered or summed. A budget of the
  wrong shape, such as `5` or `"x"`, fails nothing: it reads as a total of 0
  (app.js:616, 1059) and is kept, saved and exported unchanged.
- Planner.IsFirstTime has no contract of its own. ClearAll and StartupFallback state when it holds.

## Findings

| source | as written | input that shows it | evidently intended | confidence | as-written member | corrected member |
|---|---|---|---|---|---|---|
| app.js:1108-1116 | The import check requires only ceremonies, guests and vendors, then installs the document as it is. With no budget, the next `renderAll` reads `budget.total` of undefined: the data is already replaced and saved, yet an import error is reported. With no tasks, a later `addTask` pushes onto undefined. | `{"ceremonies":[],"guests":[],"vendors":[]}` | Back-fill the missing tasks and budget as `loadData` does, so an accepted import always yields a complete state | medium, not executed | Persistence.ImportAsWrittenInstallsIncomplete | Persistence.Import |

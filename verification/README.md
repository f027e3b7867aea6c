# FocusFlow study planner: a Dafny model of its task logic

FocusFlow is a single-user study-task tracker. A person records study
tasks (title, subject, date, start and end time, priority), ticks them off,
deletes them, filters the list and reads a progress summary; a light/dark
theme can be switched. This project models the part of it that is logic
rather than rendering:

- the task-list transitions of the root component: `addTask` prepends a new
  incomplete task, `toggleTask` flips the completion flag of every task
  with the given id, `deleteTask` removes every task with the given id,
  `toggleTheme` swaps light and dark (`TaskList.dfy`, and the `Store` class
  of `App.dfy`, which holds `tasks`, `theme` and `filter` and whose
  handlers replace them);
- the displayed list: a copy of the tasks sorted by a three-key comparator
  (incomplete first, then High > Medium > Low, then earlier start time),
  then filtered to all, pending or completed tasks (`TaskView.dfy`, with
  the order-keeping filter of `Seqs.dfy`);
- the progress summary: task count, completed count, the rounded
  percentage and the choice among four encouragement lines
  (`Progress.dfy`);
- the creation form: its field values, its open/closed flag, the submit
  handler with its presence check, the expand and cancel buttons and the
  input handlers (`StudyForm.dfy`, class `Form`), and the wiring that hands
  an accepted submission to the store (`App.SubmitForm`).

The records (`Priority`, the task record, the form's task data, `Theme`,
the filter mode) are in `Types.dfy`.

Ids are never checked for uniqueness, so nothing here assumes it: toggling
and deleting act on all tasks whose id matches, exactly as the `map` and
`filter` calls in the code do. The progress line is chosen by testing
"100%" first; `Progress.MessageFor` follows that order and proves that an
empty list still always gets the "add a task" line.

The sort in the code is the engine's `Array.prototype.sort` with the
comparator at App.tsx:65-73. It is modelled as a stable insertion sort
(`TaskView.SortTasks`). A stable sort's result is determined by the
comparator, so this is the list the engine produces. Only sortedness and
the permutation property are proved; stability itself is not stated.

## Model

| member | source | states |
|---|---|---|
| `Types.Rank` | App.tsx:69 | the priority ranks lie in 1..3, with 3 exactly for High and 1 exactly for Low |
| `TaskList.AddTask` | App.tsx:46-54 | the new list is one longer, its tail is the old list unchanged, and its head carries the form data, the given id and timestamp, and is not completed |
| `TaskList.ToggleTask` | App.tsx:56-58 | same length and order; each task differs from the old one at most in its completion flag, and that flag is negated exactly when the task's id matches |
| `TaskList.ToggleTwice` | App.tsx:57 | toggling the same id twice returns the original list |
| `TaskList.ToggleMissing` | App.tsx:57 | when no task has the id, toggling returns the list unchanged |
| `TaskList.DeleteTask` | App.tsx:60-62 | a task is in the result iff it was in the list and its id differs; each surviving task keeps its multiplicity, matching tasks all go; the result is an order-keeping subsequence; no match means no change |
| `TaskList.DeleteConcat` | App.tsx:61 | deleting from a concatenation is the concatenation of the deletions, so the survivors keep their relative order |
| `TaskList.DeleteIdempotent` | App.tsx:61 | deleting an id a second time changes nothing |
| `Seqs.Filter` | App.tsx:75-76 | the filtered list holds exactly the elements satisfying the test, with their multiplicities, as an order-keeping subsequence; it is as long as the input iff every element passes, and then equals it |
| `Seqs.FilterConcat` | App.tsx:75-76 | filtering distributes over concatenation, so filtering never reorders |
| `TaskView.CompareStrings` | App.tsx:72 | the start-time comparison returns -1, 0 or 1, and 0 exactly for equal strings |
| `TaskView.CompareStringsFirstDifference` | App.tsx:72 | the comparison is ascending: a proper prefix, or a string whose first differing character is smaller, compares as -1 |
| `TaskView.CompareStringsAntisymmetric` | App.tsx:72 | swapping the two strings negates the comparison |
| `TaskView.CompareStringsTransitive` | App.tsx:72 | the string order is transitive |
| `TaskView.Compare` | App.tsx:65-73 | when completion differs the completed task goes second; when completion agrees and priority differs the higher rank goes first; the result is 0 exactly when completion, priority and start time all agree |
| `TaskView.InOrderKeys` | App.tsx:65-73 | a task may precede another iff a completed task is followed only by completed ones, equal completion implies non-increasing rank, and equal completion and priority imply a start time that is not later |
| `TaskView.CompareAntisymmetric` | App.tsx:65-73 | swapping the comparator's arguments negates its result, so it is a consistent comparator |
| `TaskView.InOrderTotal` | App.tsx:65-73 | any two tasks are in order one way or the other |
| `TaskView.InOrderTransitive` | App.tsx:65-73 | the comparator's order is transitive |
| `TaskView.SortedIsOrdered` | App.tsx:65-73 | a list whose neighbours are in order has every pair in order |
| `TaskView.SubseqOrdered` | App.tsx:75-76 | removing tasks from an ordered list leaves it ordered |
| `TaskView.SortTasks` | App.tsx:65-73 | the sorted copy has the same length and the same multiset of tasks as the store's list, and every neighbouring pair is in comparator order |
| `TaskView.View` | App.tsx:64-78 | the displayed list holds exactly the tasks the filter mode shows (all, incomplete or completed), each with its multiplicity in the store, every pair in comparator order, as an order-keeping subsequence of the sorted copy |
| `Progress.CompletedCount` | components/ProgressHeader.tsx:11-12 | the completed count is at most the total, equals it iff every task is completed, and is 0 iff none is |
| `Progress.CompletedCountCons` | components/ProgressHeader.tsx:12 | one more task adds one to the count exactly when it is completed |
| `Progress.RoundedPercent` | components/ProgressHeader.tsx:13 | the percentage is the nearest integer to 100·c/total with halves rounded up, lies in 0..100, is 0 for no tasks or none done and 100 when all are done |
| `Progress.Percentage` | components/ProgressHeader.tsx:11-13 | the shown percentage lies in 0..100, is 0 on an empty list and when nothing is done, 100 when everything is done, and is the round-half-up value of 100·completed/total |
| `Progress.MessageFor` | components/ProgressHeader.tsx:36-42 | "all done" iff 100%, "keep going" iff strictly between 50% and 100%, "starting" iff the list is non-empty and at most 50%, "add a task" iff the list is empty; a non-empty fully done list always gets "all done" |
| `Progress.MessageText` | components/ProgressHeader.tsx:36-42 | each of the four encouragement lines belongs to exactly one message, so the lines are distinct |
| `Progress.MessageLine` | components/ProgressHeader.tsx:35-43 | the text under the bar is the "add a task" line iff the list is empty, the "great job" line iff the percentage is 100, the "keep going" line iff it is strictly between 50 and 100, and the "starting" line otherwise |
| `Progress.HalfDoneIsJustStart` | components/ProgressHeader.tsx:36-42 | exactly half done gives 50% and the "starting" line, not "keep going" |
| `Progress.RoundsUpToFull` | components/ProgressHeader.tsx:13 | 199 done of 200 already shows 100%, so 100% does not mean every task is done |
| `StudyForm.Accepts` | components/StudyForm.tsx:21 | a submission passes the guard iff title and subject each have at least one character (a string is falsy only when empty) |
| `StudyForm.PresenceOnly` | components/StudyForm.tsx:21 | a title or subject of spaces passes the submit guard; an empty one does not |
| `StudyForm.Form.constructor` | components/StudyForm.tsx:11-17 | the form starts with empty title and subject, the given date, 09:00 to 10:00, Medium priority, collapsed |
| `StudyForm.Form.Submit` | components/StudyForm.tsx:19-35 | with an empty title or subject nothing is handed on and nothing changes; otherwise the current values are handed on once, title and subject are cleared and the form collapses; date, times and priority are kept in both cases |
| `StudyForm.Form.Expand` | components/StudyForm.tsx:41 | opening the form sets the flag and keeps every field |
| `StudyForm.Form.Cancel` | components/StudyForm.tsx:136 | cancelling collapses the form and keeps every field |
| `StudyForm.Form.SetTitle` | components/StudyForm.tsx:57 | the title becomes the typed value; no other field and not the flag changes |
| `StudyForm.Form.SetSubject` | components/StudyForm.tsx:72 | the subject becomes the typed value; nothing else changes |
| `StudyForm.Form.SetDate` | components/StudyForm.tsx:86 | the date becomes the picked value; nothing else changes |
| `StudyForm.Form.SetStartTime` | components/StudyForm.tsx:101 | the start time becomes the picked value; nothing else changes |
| `StudyForm.Form.SetEndTime` | components/StudyForm.tsx:115 | the end time becomes the picked value; nothing else changes |
| `StudyForm.Form.SetPriority` | components/StudyForm.tsx:124 | the priority becomes the selected value; nothing else changes |
| `App.Toggled` | App.tsx:40 | the toggled theme always differs from the current one |
| `App.ToggledTwice` | App.tsx:39-41 | toggling the theme twice gives the original theme |
| `App.Store.constructor` | App.tsx:14-16 | the store starts with no tasks, the light theme and the "all" filter |
| `App.Store.AddTask` | App.tsx:46-54 | the task list becomes the `addTask` result; theme and filter are unchanged |
| `App.Store.ToggleTask` | App.tsx:56-58 | the task list becomes the `toggleTask` result; theme and filter are unchanged |
| `App.Store.DeleteTask` | App.tsx:60-62 | the task list becomes the `deleteTask` result; theme and filter are unchanged |
| `App.Store.ToggleTheme` | App.tsx:39-44 | the theme flips; tasks and filter are unchanged |
| `App.Store.SetFilter` | App.tsx:112 | the filter becomes the chosen mode; tasks and theme are unchanged |
| `App.Store.FilteredTasks` | App.tsx:64-78 | the list the store displays is the sorted-then-filtered view of its tasks under its filter mode: exactly the shown tasks with their multiplicities, every pair in comparator order |
| `App.SubmitForm` | App.tsx:101 | an accepted form submission prepends exactly one task built from the form's values, clears title and subject and collapses the form; a refused one leaves the task list and the form as they were; date, times and priority are kept, theme and filter never change |
| `App.FirstTaskLifecycle` | App.tsx:46-58 | one task added to an empty list is incomplete, shows 0% and the "starting" line; toggling it shows 100%, the "all done" line and an empty pending view |
| `App.HighBeforeLow` | App.tsx:65-73 | of two open tasks, the High one is listed before the Low one in either store order |

## Left out

- Loading from and saving to browser storage (App.tsx:19-37, 42), including `JSON.parse` of the stored list: this is I/O. The code does not catch a parse error there, so no silent fallback to an empty list is claimed. The store starts from the empty state of App.tsx:14-16.
- `crypto.randomUUID()` and `Date.now()` (App.tsx:49, 51) are calls into the platform: the id and the timestamp are parameters of `AddTask`.
- `new Date()` for the form's default date (components/StudyForm.tsx:13) is a clock read: the date is a constructor parameter.
- The `dark` class on the document element (App.tsx:29, 43) is a DOM effect: only the theme value is modelled.
- `Progress.RoundedPercent`: `Math.round((completed / total) * 100)` is computed in floating point; the model uses exact rational rounding, `(200·c + total) div (2·total)`. The two differ where the floating-point product lands just below a half: with 23 of 40 tasks done, `23 / 40 * 100` is 57.49999999999999 in double precision, so the program shows 57% while the model gives 58%.
- `TaskView.CompareStrings`: `localeCompare` is modelled as ordinal comparison of characters. The two agree on the zero-padded `HH:MM` strings the time inputs produce, not on arbitrary text.
- Sort stability is not stated, though the insertion sort used is stable.
- The form's `isExpanded` flag decides whether the inputs and the submit button are rendered at all; the model lets the handlers run in either state, as the handlers themselves do not test it. `e.preventDefault()` is a browser effect and is left out.
- The persisted theme value, read at start-up, is not validated by the code beyond being present; it belongs to the storage loading left out above.
- `App.SubmitForm`: the browser's check of the `required` attributes on the title, subject, date, start-time and end-time inputs (components/StudyForm.tsx:58, 73, 87, 102, 116) is not modelled. The browser refuses to submit while one of them is empty, so the handler never runs; the model only has the handler's own guard on title and subject, and so also accepts a submission with an empty date, start time or end time.
- `StudyForm.Form.Submit`: for the same reason, it hands on values with an empty date or time that the browser would have stopped before the handler.
- The rest of the markup (JSX layout, classes, icons), components/TaskItem.tsx, components/ThemeToggle.tsx and constants.tsx are display only.

# Four browser widgets, modelled in Dafny

This project models the logic of four independent browser widgets in one
repository, and proves properties of that logic:

- **The personal task manager** (`task_manager.dfy`, module `TaskManager`).
  Its `state` holds a list of task records, the filter and sort selections,
  the task being edited and the pending confirmation. The model covers:
  - adding, toggling, editing and deleting tasks;
  - deleting the completed tasks, marking every task complete and clearing the list;
  - merging an imported file by id;
  - the filtered and sorted view, the statistics and the category icons;
  - the confirm-modal state machine.

  `TaskStore` is a class whose methods update its fields. Each method is
  specified by a pure function on the task list, and the lemmas are about those
  functions.
- **The productivity dashboard** (`dashboard.dfy`, module `Dashboard`):
  - a simpler task list (`Board`) and its view, which filters and then reverses;
  - the statistics and the per-priority counts;
  - the Pomodoro countdown (`PomodoroTimer`) with start, pause, reset, the
    once-a-second tick and the choice of duration;
  - the `mm:ss` display.
- **The quote explorer** (`quotes.dfy`, module `Quotes`):
  - the loaded and filtered quote lists (`QuoteBrowser`);
  - the case-insensitive search;
  - `escapeHtml`, the chain of five replacements;
  - the message icons.
- **The portfolio contact form** (`contact_form.dfy`, module `ContactForm`):
  - validation, which reports the first failing check;
  - the record built from the form, with its phone default;
  - the WhatsApp message, built by appending its parts;
  - restoring a saved draft into the form's inputs.

Shared pieces live in three small modules:

- `Text`: JavaScript's `trim`, `toLowerCase`, `includes`, number-to-string and `padStart(2, "0")`.
- `Sequences`: `Array.prototype.filter` and `reverse`, and an `Option` type standing for null.
- `Rounding`: `Math.round(completed / total * 100)` on integers.

Ids, clock readings, the prompt's answer, the parsed import file, the fetched
quotes and the order produced by the random shuffle are all parameters.

Some behaviours of the code are easy to misread; the model states what the code does:

- Toggling a task twice brings `completedAt` back to null only for a task that
  started open. A task that started completed ends completed again, with the
  second toggle's timestamp (`TaskManager.ToggleTwice`).
- Toggling, editing or deleting an unknown id raises no error: the list stays
  as it is.
- Marking all tasks complete and deleting the completed tasks return no counts.
  `DeleteCompletedTasks` returns whether the list shrank, since that decides
  whether the list is saved.
- The dashboard's renderer carries a "newest first" comment. Tasks are put in
  front of the list and the renderer reverses it, so the list is drawn oldest
  first (`Dashboard.RenderedIsOldestFirst`).
- The quote explorer's "no results" panel is not only chosen by the guard in
  `handleSearch`. `displayQuotes` of an empty list shows the same panel, so it
  appears exactly when the filtered list is empty (`Quotes.SearchPanel`).

## Model

| member | source | states |
|---|---|---|
| Text.Trim | personal-task-manager/script.js:203-206 | `trim` returns a window of its input with only white space before and after it, whose first and last characters are not white space; it is empty exactly when the input is all white space |
| Text.LowerIdempotent | Readfile/Quoteapi/Quote.js:92 | lower-casing an already lower-cased string changes nothing |
| Text.ContainsIffOccurs | Readfile/Quoteapi/Quote.js:97-101 | `includes` is true exactly when the term occurs at some index |
| Text.ParseNatToString | productivity-dashboard/script.js:389-394 | the decimal numeral of a number reads back as that number |
| Sequences.Filter | personal-task-manager/script.js:321-332 | `filter` keeps exactly the elements passing the test, each as often as before, in their order |
| Sequences.FilterSplit | personal-task-manager/script.js:490-496 | the elements passing a test and those failing it add up to the whole list |
| Sequences.ReverseIsPermutation | productivity-dashboard/script.js:146-148 | `reverse` keeps every element with its multiplicity |
| Rounding.CompletionRate | personal-task-manager/script.js:497-498 | the rate is completed/total×100 rounded half up, 0 for an empty list, and at most 100 |
| Rounding.CompletionRateExamples | personal-task-manager/script.js:497-498 | nothing done is 0%, all done is 100%, one of two is 50% |
| TaskManager.WithTaskAdded | personal-task-manager/script.js:202-220 | blank text leaves the list unchanged; otherwise one open task with the trimmed text and no completedAt goes in front, and the old list follows it |
| TaskManager.Toggled | personal-task-manager/script.js:232-242 | only tasks with the id flip; a task becoming completed is stamped, one becoming open loses its stamp; nothing else changes |
| TaskManager.ToggleTwice | personal-task-manager/script.js:232-242 | toggling twice restores completion; open tasks come back unchanged, completed ones carry the second stamp |
| TaskManager.Edited | personal-task-manager/script.js:283-293 | only text, priority and category of the tasks with the id change; id, completion and timestamps are kept |
| TaskManager.WithoutTask | personal-task-manager/script.js:312-318 | deletion keeps, in order, exactly the tasks without the id |
| TaskManager.WithoutCompleted | personal-task-manager/script.js:551-561 | exactly the open tasks remain, in their order |
| TaskManager.DeleteCompletedIdempotent | personal-task-manager/script.js:551-561 | the list shrinks exactly when a completed task exists, and a second call changes nothing |
| TaskManager.AllCompleted | personal-task-manager/script.js:564-575 | every task becomes completed; already-completed tasks keep their completedAt, the others are stamped |
| TaskManager.MarkAllCompleteIdempotent | personal-task-manager/script.js:564-575 | marking all complete a second time changes nothing |
| TaskManager.AddKeepsCompletionConsistent | personal-task-manager/script.js:202-229 | adding keeps completedAt set exactly on completed tasks |
| TaskManager.ToggleKeepsCompletionConsistent | personal-task-manager/script.js:232-242 | toggling keeps completedAt set exactly on completed tasks |
| TaskManager.EditKeepsCompletionConsistent | personal-task-manager/script.js:283-293 | editing keeps completedAt set exactly on completed tasks |
| TaskManager.DeleteKeepsCompletionConsistent | personal-task-manager/script.js:312-318 | both deletions keep completedAt set exactly on completed tasks |
| TaskManager.MarkAllKeepsCompletionConsistent | personal-task-manager/script.js:564-575 | marking all complete keeps completedAt set exactly on completed tasks |
| TaskManager.AddKeepsIdsUnique | personal-task-manager/script.js:210-220 | adding a task with a fresh id keeps ids unique |
| TaskManager.AppendKeepsIdsUnique | personal-task-manager/script.js:630-633 | appending tasks with unique ids, none already present, keeps ids unique |
| TaskManager.ValidTasks | personal-task-manager/script.js:621-624 | as many tasks as `filter` keeps entries with truthy id, text, priority and category, each the task its kept entry stands for, in file order |
| TaskManager.ValidTasksMembers | personal-task-manager/script.js:621-624 | a task is among the valid ones exactly when some entry with truthy id, text, priority and category stands for it |
| TaskManager.Merged | personal-task-manager/script.js:630-639 | the old list stays as a prefix; what follows is, in file order, exactly the valid tasks whose id is not already present, each as often as the file holds it, and their number is reported |
| TaskManager.MergeImport | personal-task-manager/script.js:614-639 | unparsable text, a non-array, an array holding null and a file with no valid entry leave the list and report the failure; otherwise the valid entries with new ids are appended in file order, each as often as the file holds it, the old list is kept as a prefix, and the count is reported |
| TaskManager.NoValidTasksIff | personal-task-manager/script.js:621-628 | the file is rejected as holding no valid task exactly when no entry passes validation |
| TaskManager.ImportKeepsIdsUnique | personal-task-manager/script.js:630-634 | ids stay unique after a merge when the list and the file's valid part have unique ids |
| TaskManager.ImportKeepsDuplicatesWithinFile | personal-task-manager/script.js:621-634 | two copies of one valid entry are both imported |
| TaskManager.FilterTasks | personal-task-manager/script.js:321-332 | the filter keeps, in order, exactly the open, completed or high tasks; any other key keeps all |
| TaskManager.CompareAntisymmetric | personal-task-manager/script.js:335-360 | each sort comparator is antisymmetric |
| TaskManager.CompareTransitive | personal-task-manager/script.js:335-360 | each sort comparator's "goes no later" is transitive |
| TaskManager.InsertionSortSorted | personal-task-manager/script.js:335-360 | sorting by a key yields a list ordered by that key's comparator |
| TaskManager.SortTasks | personal-task-manager/script.js:335-360 | the sorted list is a permutation of its input, ordered for a known key, unchanged for any other |
| TaskManager.View | personal-task-manager/script.js:363-366 | the rendered list holds exactly the tasks the filter keeps, in the key's order |
| TaskManager.PrioritySortOrder | personal-task-manager/script.js:347-354 | the priority sort puts high before medium before low, newer before older within a priority |
| TaskManager.PrioritySortExample | personal-task-manager/script.js:347-354 | two high tasks and a low one sort as newer high, older high, low |
| TaskManager.DateSortOrder | personal-task-manager/script.js:339-346 | "date" is newest first and "date-oldest" oldest first |
| TaskManager.ComputeStatistics | personal-task-manager/script.js:490-506 | total, completed, high counts; pending is total minus completed; the percentage is the rounded rate, 0 for no tasks, at most 100 |
| TaskManager.BuyMilkScenario | personal-task-manager/script.js:202-247 | adding "Buy milk" and completing it gives 1 task, 1 done, 0 pending, 0 high, 100% |
| TaskManager.BulkActionsShown | personal-task-manager/script.js:509-518 | the condition `updateBulkActions` computes holds exactly when the list is non-empty |
| TaskManager.CategoryIcon | personal-task-manager/script.js:456-466 | each of the five named categories has its own icon; every other category is a folder |
| TaskManager.TaskStore.constructor | personal-task-manager/script.js:64-72 | the saved list, filter "all", sort "date", medium priority, nothing being edited or pending |
| TaskManager.TaskStore.VisibleTasks | personal-task-manager/script.js:363-366 | the list shown holds exactly the tasks the current filter keeps, in the current sort order |
| TaskManager.TaskStore.SelectPriority | personal-task-manager/script.js:125-131 | only the selected priority changes |
| TaskManager.TaskStore.SelectFilter | personal-task-manager/script.js:134-141 | only the current filter changes |
| TaskManager.TaskStore.SelectSort | personal-task-manager/script.js:144-147 | only the current sort changes |
| TaskManager.TaskStore.AddTask | personal-task-manager/script.js:202-229 | adds exactly when the text is not blank, with the selected priority; nothing but the list changes |
| TaskManager.TaskStore.ToggleTaskCompletion | personal-task-manager/script.js:232-247 | the list becomes the toggled list; nothing else changes |
| TaskManager.TaskStore.EditTask | personal-task-manager/script.js:250-267 | the editor opens, remembering the id, only for a task that exists |
| TaskManager.TaskStore.SaveEditedTask | personal-task-manager/script.js:270-302 | without a truthy editing id or with blank text nothing changes; otherwise the task is edited, priority defaulting to medium, and the editor closes |
| TaskManager.TaskStore.CloseEditModal | personal-task-manager/script.js:305-309 | forgets the task being edited and nothing else |
| TaskManager.TaskStore.DeleteTask | personal-task-manager/script.js:312-318 | the list loses exactly the tasks with the id |
| TaskManager.TaskStore.DeleteCompletedTasks | personal-task-manager/script.js:551-561 | only open tasks remain; it reports a save exactly when a completed task existed |
| TaskManager.TaskStore.MarkAllTasksComplete | personal-task-manager/script.js:564-575 | the list becomes the all-completed list; nothing else changes |
| TaskManager.TaskStore.ClearAllTasks | personal-task-manager/script.js:578-584 | the list becomes empty; nothing else changes |
| TaskManager.TaskStore.ShowConfirmModal | personal-task-manager/script.js:521-526 | remembers the action and its data |
| TaskManager.TaskStore.ExecutePendingAction | personal-task-manager/script.js:529-548 | runs the remembered action when it is one of the four, leaves the list otherwise, and then forgets the action |
| TaskManager.TaskStore.ImportTasks | personal-task-manager/script.js:604-649 | the list and the outcome are those of the merge, so each failure (an array holding null included) leaves the list and reports its kind; nothing else changes |
| TaskManager.TaskStore.Stats | personal-task-manager/script.js:490-506 | pending is total minus completed, and the percentage is at most 100 |
| Dashboard.WithTaskAdded | productivity-dashboard/script.js:89-109 | blank text leaves the list unchanged; otherwise one open task with the trimmed text and the priority goes in front |
| Dashboard.Toggled | productivity-dashboard/script.js:111-123 | only tasks with the id flip their completion; nothing else changes |
| Dashboard.ToggleTwice | productivity-dashboard/script.js:111-123 | toggling twice gives back the list |
| Dashboard.WithoutTask | productivity-dashboard/script.js:125-131 | deletion keeps, in order, exactly the tasks without the id, each as often as before |
| Dashboard.WithTextEdited | productivity-dashboard/script.js:208-222 | a cancelled or blank prompt changes nothing; otherwise only the text of the tasks with the id becomes the trimmed answer |
| Dashboard.Filtered | productivity-dashboard/script.js:137-145 | "active" and "completed" keep exactly the open or completed tasks in order, each as often as before; any other key keeps all |
| Dashboard.Rendered | productivity-dashboard/script.js:137-148 | the drawn list is the filtered list in reverse order |
| Dashboard.AddKeepsNewestFirst | productivity-dashboard/script.js:89-101 | adding a task stamped no earlier than the others keeps the list newest first |
| Dashboard.SubsequenceKeepsNewestFirst | productivity-dashboard/script.js:125-131 | deleting or filtering keeps a newest-first list newest first |
| Dashboard.RenderedIsOldestFirst | productivity-dashboard/script.js:137-148 | a newest-first list is drawn oldest first |
| Dashboard.ComputeStats | productivity-dashboard/script.js:224-240 | total, completed and high counts; pending is total minus completed; the rate is the rounded percentage, 0 for no tasks, at most 100 |
| Dashboard.PriorityCounts | productivity-dashboard/script.js:331-337 | each count is the number of times "low", "medium" or "high" occurs among the tasks' priorities |
| Dashboard.PriorityCountsKnown | productivity-dashboard/script.js:331-337 | the three counts add up to the number of tasks whose priority is low, medium or high |
| Dashboard.PriorityCountsSum | productivity-dashboard/script.js:331-337 | the three counts add up to at most the total, and to exactly the total when every priority is one of the three |
| Dashboard.Board.constructor | productivity-dashboard/script.js:27-29 | the saved list, filter "all", priority "medium" |
| Dashboard.Board.Shown | productivity-dashboard/script.js:137-148 | the drawn list is the filtered list in reverse order, with the same tasks |
| Dashboard.Board.SelectFilter | productivity-dashboard/script.js:47-54 | only the filter changes |
| Dashboard.Board.SelectPriority | productivity-dashboard/script.js:56-62 | only the selected priority changes |
| Dashboard.Board.AddTask | productivity-dashboard/script.js:89-109 | adds exactly when the text is not blank, with the selected priority |
| Dashboard.Board.ToggleTask | productivity-dashboard/script.js:111-123 | the list becomes the toggled list |
| Dashboard.Board.DeleteTask | productivity-dashboard/script.js:125-131 | the list loses exactly the tasks with the id |
| Dashboard.Board.EditTask | productivity-dashboard/script.js:208-222 | the list becomes the edited list |
| Dashboard.FormatTime | productivity-dashboard/script.js:389-395 | for a non-negative time, two or more digits of minutes, ":", and two digits of seconds |
| Dashboard.PaddedNumeral | productivity-dashboard/script.js:391-394 | a padded numeral has at least two digits, reads as the number, and starts with "0" only when it has exactly two |
| Dashboard.FormatTimeLeadingZero | productivity-dashboard/script.js:389-395 | minutes longer than two digits have no leading zero, so the display is canonical |
| Dashboard.FormatTimeRoundTrip | productivity-dashboard/script.js:389-395 | reading the display back gives the remaining seconds, so different times display differently |
| Dashboard.FormatNegative | productivity-dashboard/script.js:389-395 | one second past zero displays as "-1:-1" |
| Dashboard.PomodoroTimer.constructor | productivity-dashboard/script.js:31-33 | 25 minutes left of 25, stopped |
| Dashboard.DisplayWithinDuration | productivity-dashboard/script.js:389-395 | while time is left, what a valid timer (remaining time at most the duration) displays reads back as no more than the duration |
| Dashboard.PomodoroTimer.Start | productivity-dashboard/script.js:340-346 | the timer runs, and the times are untouched |
| Dashboard.PomodoroTimer.Pause | productivity-dashboard/script.js:371-378 | the timer stops, and the times are untouched |
| Dashboard.PomodoroTimer.Reset | productivity-dashboard/script.js:380-387 | the timer stops and rewinds to the chosen duration |
| Dashboard.PomodoroTimer.Tick | productivity-dashboard/script.js:347-368 | one second less; the timer keeps running exactly while time is left |
| Dashboard.PomodoroTimer.SelectDuration | productivity-dashboard/script.js:69-80 | a stopped timer takes minutes×60 as duration and remaining time; a running one ignores the choice |
| Quotes.ReplaceAllAppend | Readfile/Quoteapi/Quote.js:215-222 | a global replacement distributes over concatenation |
| Quotes.EscapeHtmlChar | Readfile/Quoteapi/Quote.js:215-222 | each character becomes its entity; because "&" goes first, entities are not escaped again |
| Quotes.EscapeHtmlIsEscapeEach | Readfile/Quoteapi/Quote.js:215-222 | the chain of five replacements equals escaping each character once |
| Quotes.EscapeHtmlRemovesMarkup | Readfile/Quoteapi/Quote.js:215-222 | the output has no "<", ">", '"' or "'" |
| Quotes.EscapeHtmlAmpersands | Readfile/Quoteapi/Quote.js:215-222 | every "&" in the output begins one of the five entities |
| Quotes.EscapeHtmlPlain | Readfile/Quoteapi/Quote.js:215-222 | a string without any of the five characters comes back unchanged |
| Quotes.UnescapeEscapeHtml | Readfile/Quoteapi/Quote.js:215-222 | reading the entities back gives the input, so escaping loses nothing |
| Quotes.SearchTerm | Readfile/Quoteapi/Quote.js:92 | the term is empty exactly when the typed value is all white space |
| Quotes.Search | Readfile/Quoteapi/Quote.js:92-102 | a blank term keeps all quotes; otherwise, in order, exactly those whose lower-cased text or author contains the term |
| Quotes.MatchesIffOccurs | Readfile/Quoteapi/Quote.js:97-101 | a quote matches exactly when the term occurs in its lower-cased text or author |
| Quotes.SearchIgnoresCase | Readfile/Quoteapi/Quote.js:91-102 | typing in upper or lower case gives the same result |
| Quotes.DisplayQuotes | Readfile/Quoteapi/Quote.js:112-130 | an empty list shows the no-results panel, a non-empty one its cards |
| Quotes.SearchPanel | Readfile/Quoteapi/Quote.js:104-108 | the guarded no-results branch shows what displayQuotes would show, so the panel is always displayQuotes of the filtered list |
| Quotes.IconForMessageType | Readfile/Quoteapi/Quote.js:191-199 | success, error and warning have their icons; every other type gets "info-circle" |
| Quotes.QuoteBrowser.constructor | Readfile/Quoteapi/Quote.js:13-14 | no quotes, the welcome panel, no message, nothing unreadable loaded |
| Quotes.QuoteBrowser.LoadAllQuotes | Readfile/Quoteapi/Quote.js:34-59 | a loaded list becomes both the full and the filtered list and is shown; a list whose drawing throws becomes both lists but the error panel shows, and its quotes are marked unreadable; a failure before the body is assigned keeps both lists and shows the error panel; each case sets its message |
| Quotes.QuoteBrowser.RefreshQuotes | Readfile/Quoteapi/Quote.js:61-81 | with nothing loaded only a warning appears; with unreadable quotes the container stays and "Error refreshing quotes" appears; otherwise the shuffled order is shown with success; the lists are untouched |
| Quotes.QuoteBrowser.ClearQuotes | Readfile/Quoteapi/Quote.js:83-89 | both lists and the search box are emptied, the welcome panel returns, and nothing unreadable is left |
| Quotes.QuoteBrowser.HandleSearch | Readfile/Quoteapi/Quote.js:91-109 | with readable quotes the filtered list is the search result and the panel is displayQuotes of it, so the no-results panel shows exactly when it is empty; with unreadable ones a blank value copies the full list and leaves the container (drawing throws), and any other value changes nothing (the filter throws); the full list is untouched |
| ContactForm.IndexOf | script.js:169-178 | helper for phrasing the e-mail test: the first index holding the character |
| ContactForm.IsEmailIffPattern | script.js:169-178 | the direct test accepts exactly the strings the e-mail pattern matches |
| ContactForm.ValidateForm | script.js:155-194 | checks name, e-mail, subject and message in that order; each error is reported exactly when its check is the first to fail, and the form is valid exactly when all pass |
| ContactForm.GetFormData | script.js:197-207 | every field is trimmed; the phone is "Not provided" exactly when it is blank |
| ContactForm.BuildWhatsAppMessage | script.js:290-300 | appending the parts one by one yields the message |
| ContactForm.WhatsAppHead | script.js:291-293 | the message opens with the header, then the name line, then the e-mail line |
| ContactForm.WhatsAppPhone | script.js:293-297 | right after the e-mail line stands the phone line exactly when a phone was given |
| ContactForm.WhatsAppTail | script.js:294-298 | the subject line follows the optional phone line, and the message lines follow the subject line |
| ContactForm.WhatsAppFooter | script.js:299-300 | the message ends with the footer carrying the time it was sent |
| ContactForm.WhatsAppLayout | script.js:290-300 | the message gives name, e-mail, subject and message in that order, and a phone line exactly when a phone is given |
| ContactForm.PhoneLineShown | script.js:294-296 | a blank phone, or one typed as "Not provided", drops the phone line |
| ContactForm.Restored | script.js:360-367 | an input is overwritten only by a non-empty saved value |
| ContactForm.RestoredIdempotent | script.js:360-367 | restoring the same draft twice is restoring it once |
| ContactForm.LoadFormDraft | script.js:356-372 | without a draft nothing changes; with one, each input becomes its restored self |

## Left out

- Rendering, modals, alerts, toasts, loading spinners and Chart.js charts are not modelled, nor is the contact form's navigation menu or smooth scrolling.
- Persistence and I/O are outside the model: `localStorage`, `fetch` to the quote server and to the form service, `FileReader`, `JSON.parse` and `JSON.stringify`, export to a file, the clipboard, `mailto` and `window.open`. An import file is modelled as already parsed, or as unparsable.
- A missing file in the import dialog is not modelled.
- `Readfile/Quoteapi/server.js` is not part of this model. It is an HTTP server that picks quotes at random.
- `Date.now()`, `new Date().toISOString()` and `toLocaleString()` are parameters, and clock readings are integers. `formatDate` and `updateDateDisplay` are left out.
- The `Math.random` shuffle in `refreshQuotes` is a parameter, required to be a permutation of the loaded quotes.
- `setInterval` scheduling, notifications and the timer sound are left out. The interval callback is the `Tick` method.
- TaskManager.LexCompare: compares by character code instead of `localeCompare`, whose order depends on the locale.
- Text.Lower: lower-cases ASCII letters only, not the whole Unicode range.
- String lengths count characters, where JavaScript counts UTF-16 code units. Every character the model's fixed texts use is a single UTF-16 unit, so the two counts agree for them.
- The WhatsApp line icons are the characters `script.js` holds: each icon is an emoji's UTF-8 bytes read back as Windows-1252 text, four characters long.
- Rounding.CompletionRate: computes `Math.round` on the exact rational instead of on the floating-point quotient. The two differ where the quotient times 100 lands just below a half: 23 of 40 gives 57 in JavaScript and 58 in the model, and 29 of 200 gives 14 against 15. With at most 1000 tasks, 40 such pairs exist.
- Quotes.QuoteBrowser.HandleSearch: with unreadable quotes and a non-blank term, the model takes the filter to throw (Quote.js:97-101). The source's filter does not throw when every unreadable quote has its text, lacks only its author and contains the term, because `||` then skips the author; the model does not tell those quotes apart.
- Quotes.QuoteBrowser.LoadAllQuotes: assumes the server sends a list of quotes. A JSON body that is not a list is assigned to `allQuotes` before copying it throws (Quote.js:44-45); that state is not modelled.
- TaskManager.BulkActionsShown: states the condition only. `updateBulkActions` runs at start-up and at the end of `renderTaskList`, which returns early when no task is in view (personal-task-manager/script.js:83, 369-373, 384). So the bar is not refreshed when the list is cleared or the view becomes empty; when it is shown is not modelled.
- TaskManager.SortTasks: does not state which order `Array.prototype.sort` gives tasks the comparator ties. The model sorts stably.
- TaskManager.ImportEntry: imported priorities are limited to the three known ones, ids to integers, and `createdAt` and `completedAt` to integer clock readings. The code copies whatever the file holds; a missing or unparsable `createdAt` would make the date comparators of personal-task-manager/script.js:339-354 return NaN, which the model's ordering does not describe.
- TaskManager.CategoryIcon: ignores inherited object keys such as "toString", which the object lookup would find.
- The "input" handler that marks fields as touched, and saving and clearing the form draft, are not modelled.
- The message box hiding itself after three seconds, and the HTML of each quote card, are not modelled. A card display holds the quotes it shows.

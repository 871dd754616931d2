# To-do list core of a React Native to-do app, modelled in Dafny

The app keeps a single list of to-do items, each `{id, title, description,
completed}`, in one on-device key-value slot (`"@todos"`). Two screens work on
it:

- **The list screen** (`screens/TodoListScreen.js`) loads the stored list when
  it gains focus. It shows a view of the list: a completion filter ("All",
  "Completed", "Uncompleted") followed by a case-insensitive title search. It
  labels the filter choices with counts taken over the whole list. Its
  handlers toggle an item's `completed` flag or delete an item, and each
  handler writes the whole new list back to the slot.
- **The add screen** (`screens/AddTodos.js`) validates a typed title and
  appends one item to the stored list. For dictated text, it splits the
  transcription with `split(/and|,|\./i)`, trims every piece, drops the empty
  ones, appends one item per remaining task, and writes the list once.

The model has six modules:

| file | module | what it holds |
|---|---|---|
| `seqs.dfy` | `Seqs` | `Array.prototype.filter` as an order-preserving selection, and the subsequence relation |
| `text.dfy` | `Text` | `trim` with the exact ECMAScript whitespace set, ASCII `toLowerCase`, `includes`, and decimal rendering of a count |
| `model.dfy` | `TodoModel` | the `Todo` record and the storage slot (a class whose `slot` field is `None` while the key was never written) |
| `todo_list_screen.dfy` | `TodoListScreen` | the view, the counts, and the toggle and delete lists as functions; the screen as a class whose handlers update `todos` and the slot |
| `add_todos.dfy` | `AddTodos` | the voice splitter as functions; the bulk append as a loop; the screen as a class with the submit and voice handlers |
| `split_examples.dfy` | `SplitExamples` | the splitter evaluated on concrete transcriptions |

Strings are sequences of Dafny `char`s, which are Unicode scalar values.
JavaScript strings are sequences of UTF-16 code units instead; the difference
is listed under "Left out". The regular expression has no `u` flag, so its
case folding maps no non-ASCII character onto `a`, `n` or `d`. The separator test therefore only needs to accept the
two ASCII cases of each letter, and the model of `split` is exact.

Where the code and the intended design of the store differ, the model follows
the code:
- Toggling or deleting an id that no item has is a silent no-op. There is no
  not-found error (`ToggleAbsent`, `DeleteAbsent`).
- Ids are not guaranteed unique. The model takes them as parameters.
- The title is validated trimmed but stored as typed.
- "and" is a separator even inside a word, so "candy" gives "c" and "y".
- A focus load with no stored key keeps the in-memory list; it does not reset
  it to empty.
- The voice path writes the slot even when there is no task. An absent key
  then becomes an empty stored list.

`Storage.StoredOrEmpty` is the add screen's read of the slot, the stored list
or an empty one when the key is absent (`screens/AddTodos.js:91-92` and
`screens/AddTodos.js:203-204`). What it returns is fixed by the contracts of
`AddScreen.HandleSubmit` and `AddScreen.CreateTodosFromSpeech`, whose rows
below cover those lines.

## Model

| member | source | states |
|---|---|---|
| Seqs.Filter | screens/TodoListScreen.js:188-196 | the result holds exactly the elements that satisfy the predicate, keeps their order (a subsequence), and is no longer than the input |
| Seqs.FilterMultiplicity | screens/TodoListScreen.js:157 | an accepted element occurs in the result as often as in the input; a rejected one does not occur |
| Seqs.FilterPartition | screens/TodoListScreen.js:282-291 | two complementary filters split the input: their lengths add up to its length |
| Seqs.FilterAppend | screens/AddTodos.js:201 | filtering a concatenation is the concatenation of the filtered parts |
| Text.TrimStartSpec | screens/AddTodos.js:200 | the result is a suffix of the input; everything removed is whitespace; the result does not start with whitespace |
| Text.TrimEndSpec | screens/AddTodos.js:200 | the result is a prefix of the input; everything removed is whitespace; the result does not end with whitespace |
| Text.TrimSpec | screens/AddTodos.js:76 | `trim` returns a contiguous run of its input; the run is empty exactly when the input is all whitespace; otherwise its first and last characters are not whitespace |
| Text.Trim | screens/AddTodos.js:200 | `trim` never lengthens its input, and a non-empty result neither starts nor ends with whitespace (`TrimStartSpec`, `TrimEndSpec` and `TrimSpec` state the rest) |
| Text.TrimIdempotent | screens/AddTodos.js:200 | trimming a trimmed string changes nothing |
| Text.TrimAll | screens/AddTodos.js:200 | the `map(t => t.trim())` step keeps the number of pieces |
| Text.TrimAllAppend | screens/AddTodos.js:200 | trimming a concatenation of piece lists trims each part |
| Text.ToLower | screens/TodoListScreen.js:195 | lower-casing keeps the length |
| Text.Contains | screens/TodoListScreen.js:195 | `includes` is true exactly when the needle occurs at some index of the haystack (so the empty needle is always found) |
| Text.DecimalString | screens/AddTodos.js:216 | the rendered count is a non-empty run of decimal digits with no leading zero |
| Text.DecimalRoundTrip | screens/AddTodos.js:216 | reading the rendered count back as a decimal number gives the count |
| TodoListScreen.CountsPartition | screens/TodoListScreen.js:274-291 | the "Completed" and "Uncompleted" label counts add up to the "All" count |
| TodoListScreen.FilterByCompletion | screens/TodoListScreen.js:189-193 | "Completed" keeps exactly the completed items and "Uncompleted" exactly the others, as many as the matching label counts; any other filter value keeps the list unchanged; order is kept, and every item that passes is kept as often as it occurs |
| TodoListScreen.FilteredTodos | screens/TodoListScreen.js:188-196 | the view is a subsequence of the list; an item is in it exactly when it passes the completion filter and its lower-cased title contains the lower-cased search text; an item that is shown occurs as often as in the list; with an empty search text it is the completion filter alone |
| TodoListScreen.Toggled | screens/TodoListScreen.js:179-181 | same length; at every position id, title and description are kept, and the flag flips exactly where the id matches |
| TodoListScreen.ToggleTwice | screens/TodoListScreen.js:179-181 | toggling the same id twice gives back the original list |
| TodoListScreen.ToggleAbsent | screens/TodoListScreen.js:179-181 | toggling an id that no item has returns the list unchanged |
| TodoListScreen.Removed | screens/TodoListScreen.js:157 | the result is a subsequence of the list; it holds exactly the items whose id differs, each as often as before |
| TodoListScreen.DeleteAbsent | screens/TodoListScreen.js:157 | deleting an id that no item has returns the list unchanged |
| TodoListScreen.DeleteTwice | screens/TodoListScreen.js:157 | deleting the same id twice is deleting it once |
| TodoListScreen.ListScreen.constructor | screens/TodoListScreen.js:50-56 | the screen starts with an empty list, the menu closed, filter "All", empty search text and no message |
| TodoListScreen.ListScreen.FilterLabelCounts | screens/TodoListScreen.js:274-291 | the three labels count the whole in-memory list, whatever filter and search are active; the "Completed" and "Uncompleted" counts are the sizes of those filters and add up to the "All" count |
| TodoListScreen.ListScreen.Visible | screens/TodoListScreen.js:188-196 | the rendered items are a subsequence of the list; an item is shown exactly when it passes the selected filter and the search, and as often as it occurs in the list |
| TodoListScreen.ListScreen.ToggleFilter | screens/TodoListScreen.js:74 | opens the filter menu when it is closed and closes it when it is open |
| TodoListScreen.ListScreen.SelectFilter | screens/TodoListScreen.js:76-79 | the chosen filter becomes the selected one and the menu closes |
| TodoListScreen.ListScreen.ChangeSearchText | screens/TodoListScreen.js:257-258 | the typed text becomes the search text |
| TodoListScreen.ListScreen.LoadOnFocus | screens/TodoListScreen.js:96-100 | a stored list, even an empty one, replaces the in-memory list; with no stored key the in-memory list stays as it was |
| TodoListScreen.ListScreen.ToggleCompleted | screens/TodoListScreen.js:178-185 | the in-memory list becomes the toggled list and the slot holds that same list |
| TodoListScreen.ListScreen.ConfirmDelete | screens/TodoListScreen.js:155-161 | the in-memory list loses exactly the items with that id, the slot holds the new list, and the success message is set |
| AddTodos.FirstSeparatorFrom | screens/AddTodos.js:199 | the scan stops at or after its start and no later than the end; where it stops before the end, the pattern matches |
| AddTodos.NoSeparatorBefore | screens/AddTodos.js:199 | no position the scan passes over is a match |
| AddTodos.PrefixBeforeSeparator | screens/AddTodos.js:199 | the text before the first match contains no ",", no "." and no "and" in any letter case |
| AddTodos.Pieces | screens/AddTodos.js:199 | `split` always returns at least one piece |
| AddTodos.PiecesHaveNoSeparator | screens/AddTodos.js:199 | no piece contains a match of the pattern |
| AddTodos.MatchAt | screens/AddTodos.js:199 | what is cut out at a match is ",", "." or a three-letter "and" in some letter case |
| AddTodos.SplitRejoins | screens/AddTodos.js:199 | the text is its pieces joined left to right by whole matches of the pattern: nothing is lost and nothing is reordered |
| AddTodos.NoSeparatorInfix | screens/AddTodos.js:199-200 | a contiguous part of a text without matches has no matches, so trimming a piece cannot create one |
| AddTodos.SplitIntoTasks | screens/AddTodos.js:198-201 | every task is non-empty, equals its own trim and contains no ",", "." or "and" in any letter case; the tasks are a subsequence of the trimmed pieces, and every non-empty trimmed piece is a task as many times as it occurs among the pieces |
| AddTodos.NoTaskFromBlankPieces | screens/AddTodos.js:198-201 | when every piece trims to nothing, there is no task |
| AddTodos.AppendTasks | screens/AddTodos.js:206-213 | the result is the old list followed by one item per task, in task order: the task as title, the i-th fresh id, an empty description, not completed |
| AddTodos.NothingAppended | screens/AddTodos.js:206-215 | with no task, the list written back equals the list read |
| AddTodos.AddScreen.constructor | screens/AddTodos.js:35-38 | the form starts with empty title, description, error and message |
| AddTodos.AddScreen.HandleSubmit | screens/AddTodos.js:75-102 | a title that trims to nothing sets the error and leaves the slot and the form untouched; otherwise the slot holds the old stored list (empty when the key is absent) plus one final item with the title as typed (untrimmed), the description and `completed` false; the success message is set and the form cleared |
| AddTodos.AddScreen.CreateTodosFromSpeech | screens/AddTodos.js:197-216 | the slot is always written and holds the old stored list followed by one item per task; the returned count is the number of tasks; with no task the stored list is unchanged; the message renders that count |
| AddTodos.AddScreen.ReceiveTranscription | screens/AddTodos.js:185-190 | a missing or blank transcription sets the error and leaves the slot and message untouched; any other text goes through the voice path with the outcome above |
| SplitExamples.SplitExample | screens/AddTodos.js:198-201 | "milk, eggs and tea." gives the tasks "milk", "eggs", "tea" in that order; the empty piece after the final stop is dropped |
| SplitExamples.SplitInsideWord | screens/AddTodos.js:199 | "candy" gives the tasks "c" and "y" |
| SplitExamples.SplitOnlySeparators | screens/AddTodos.js:198-201 | "and, ." gives no task |

## Left out

- Storage I/O and serialisation. `AsyncStorage.getItem`/`setItem` and `JSON.parse`/`JSON.stringify` become reads and writes of the `Storage.slot` field. Serialisation is taken to round-trip exactly. The slot only ever holds lists the app wrote, so a stored empty string cannot occur.
- The `catch` branches for failed storage or transcription (screens/TodoListScreen.js:162-164, screens/AddTodos.js:103-106, 191-193). Storage and the parser are taken never to fail.
- Microphone permission, recording, and the transcription request (screens/AddTodos.js:114-183). These are foreign APIs and the network. `ReceiveTranscription` takes the returned `text` field as an `Option<string>`.
- Id generation with `Date.now()` and `Math.random()`. `HandleSubmit` takes the id as a parameter. The voice path takes `freshId`, which maps a task's index to its id. Nothing is claimed about uniqueness, because the source guarantees none.
- Strings as Unicode scalar values. A character outside the Basic Multilingual Plane is one element here but two UTF-16 code units in JavaScript, and a lone surrogate, which a JavaScript title or search text may hold, cannot be represented. `trim` and `split` are unaffected, because every character they test lies in the Basic Multilingual Plane. `includes` with a needle that is or starts or ends with a lone surrogate can match inside a surrogate pair in JavaScript, which the model does not capture.
- Text.ToLower: models `toLowerCase` for ASCII letters only. Its contract states only the length. The full Unicode case mapping is not modelled.
- The Toast effects that show a message or error and then reset it to the empty string (screens/TodoListScreen.js:114-141, screens/AddTodos.js:43-65). In the model, `error` and `message` keep the last value a handler set.
- The delete confirmation dialog (screens/TodoListScreen.js:146-170). Only the confirmed branch is modelled, as `ConfirmDelete`. Cancel does nothing.
- The form fields' change handlers and clear buttons (screens/AddTodos.js:264-293). They are plain assignments to `title` and `description`, which `HandleSubmit` reads as screen state.
- Interleaving between the `await`s of different handlers. Each handler is modelled as one atomic step.
- The theme toggle, the expand toggle, date formatting, navigation, and all JSX and styles.
- screens/onBoardingScreen.js and App.js are not part of this model. They hold a timed navigation and the navigator wiring, with no logic on the list.

# Task tracker: a Dafny model of the task collection

The task tracker is a single Python script, `task_cli.py`, that keeps a list
of tasks in `tasks.json`. Each task is a record with an integer `id`, a
`description`, a `status` and two timestamps, `createdAt` and `updatedAt`.
The script has two commands:

- `add <words...>` loads the list permissively: a missing file and a file
  that does not decode as JSON both count as an empty list. It gives the
  new task the ID `max(ids, default 0) + 1` and creates it as `todo`, with
  both timestamps equal to the current time. It appends the task, rewrites
  the file and prints `✅ Task added (ID: n)`.
- `list` prints `No tasks found.` when the file is missing or the list is
  empty. Otherwise it prints one line `[id] (status) - description` per
  task, in file order. It decodes the file without a guard, so an
  undecodable file stops the program with an uncaught decoding error.

Any other first argument prints `❌ Unknown command: <name>`. With no
command, the script prints a usage line. `add` without words asks for a
description.

The model removes the file and the JSON plumbing. What is left is pure
sequence manipulation:

- `text.dfy`, modules `Wrappers` and `Text`. `Option`, plus the Python
  string operations the script uses. `IntToString` models `str(n)` and
  `JoinWords` models `" ".join(ws)`. Each has an independent inverse,
  `ParseInt` for `int(s)` and `SplitOnSpace` for `s.split(" ")`, and
  round-trip lemmas link each pair.
- `task_store.dfy`, module `TaskStore`. Holds the `Task` record and
  `LoadResult` (`Missing | Corrupt | Loaded(tasks)`), which stands for the
  state of `tasks.json`. Also holds the permissive load, ID assignment and
  `Add`, with lemmas on ID uniqueness, ordering, the empty-store cases and
  repeated adds.
- `listing.dfy`, module `Listing`. Holds `ListTasks` and the line format,
  with lemmas that read IDs back from the printed lines and relate `add` to
  `list`.
- `cli.dfy`, module `Cli`. Holds `ParseArgs`, which takes `sys.argv` with
  the script name first, and `Run`. `Run` maps the arguments, the file
  state and the clock reading to the printed lines and to the collection
  written back, or to a crash.

`list` decodes the file with an unguarded `json.load`
(task_cli.py:47). An undecodable file therefore ends the program with an
uncaught exception, which the model represents as the outcome `Crashed`.
A new ID is `max(ids, default 0) + 1` taken over whatever IDs the file
holds (task_cli.py:20). A hand-edited file with negative IDs can therefore
lead to a new ID of 0 or below. The model keeps IDs as unbounded `int` and
proves only what the code guarantees: the new ID exceeds every ID already
in the file.

## Model

| member | source | states |
|---|---|---|
| TaskStore.LoadPermissive | task_cli.py:9-17 | a missing file and an undecodable file both give the empty list to `add`; a decoded list is used as is |
| TaskStore.MaxOrDefault | task_cli.py:20 | `max(xs, default=d)`: the default for an empty list; otherwise an element of the list that no element exceeds |
| TaskStore.NextId | task_cli.py:20 | the new ID is 1 for an empty collection, exceeds every existing ID, and otherwise is exactly one more than some existing ID |
| TaskStore.NextIdIsMaxPlusOne | task_cli.py:20 | stated over the list of IDs: the new ID minus one is in the list and every listed ID is below the new ID |
| TaskStore.Add | task_cli.py:8-37 | the saved collection is one longer, keeps the loaded collection as an unchanged prefix, ends with a `todo` task with the given description and `createdAt == updatedAt == now` whose ID exceeds every loaded ID; the message names that ID |
| TaskStore.AddPreservesUniqueIds | task_cli.py:20-33 | IDs are pairwise distinct after `add` if and only if they were before |
| TaskStore.AddPreservesAscendingIds | task_cli.py:20-33 | a collection ordered by strictly increasing ID stays so after `add` |
| TaskStore.AddToEmptyStore | task_cli.py:9-20 | missing file, corrupt file and empty list give the same `add` result: a single task with ID 1 |
| TaskStore.AddToNumbered | task_cli.py:20-33 | `add` onto tasks numbered 1..k appends the task numbered k+1 |
| TaskStore.AddManyContinuesNumbering | task_cli.py:20-33 | successive adds onto tasks numbered 1..k append tasks k+1, k+2, ... in call order |
| TaskStore.AddManyFromEmpty | task_cli.py:9-33 | from an empty store, N successive adds give exactly N tasks with IDs 1..N in call order, each `todo` with its own description and timestamp |
| TaskStore.AddManyPreservesUniqueIds | task_cli.py:20-33 | any number of adds keeps IDs pairwise distinct |
| Text.IntToString | task_cli.py:55 | `str(n)`: the printed ID is non-empty, starts with `-` exactly for negatives, is otherwise decimal digits without leading zeros (only 0 prints as `0`), and holds no `]` or space |
| Text.IntToStringRoundTrip | task_cli.py:55 | reading a printed ID back as an integer gives the ID |
| Text.JoinWords | task_cli.py:71 | `" ".join(words)`: empty for no words; otherwise its length is the words' total length plus one space between each pair, and it starts with the first word and ends with the last |
| Text.SplitOnSpace | task_cli.py:71 | the reference inverse of the join, Python's `s.split(" ")`: at least one piece, and no piece contains a space |
| Text.SplitJoinRoundTrip | task_cli.py:71 | joining space-free words with single spaces and splitting again gives the words back |
| Text.JoinSplitRoundTrip | task_cli.py:71 | splitting any text on spaces and joining again gives the text back |
| Listing.FormatLine | task_cli.py:55 | the line `[id] (status) - description`: it opens with `[`, the printed ID follows, then `] (`, then the task's status text, then `) - `, and the description ends the line; its length is the three fields' lengths plus 8 |
| Listing.ListTasks | task_cli.py:41-55 | a missing file or an empty list prints only "No tasks found."; a corrupt file is a decoding error; otherwise one formatted line per task in collection order |
| Listing.FormatLineId | task_cli.py:55 | the ID can be read back from a task's printed line |
| Listing.ListedIds | task_cli.py:54-55 | the lines of a non-empty listing carry the tasks' IDs in collection order |
| Listing.ListEmptyIff | task_cli.py:42-51 | for a readable file, the listing is exactly "No tasks found." if and only if there are no tasks |
| Listing.AddThenList | task_cli.py:20-55 | after `add`, `list` shows the earlier tasks unchanged and in order, then `[id] (todo) - description` for the new task |
| Cli.ParseArgs | task_cli.py:60-78 | fewer than 2 arguments means usage; `add` with fewer than 3 means a missing description; otherwise `add` with the later words joined by spaces; `list` lists; any other command is unknown |
| Cli.Run | task_cli.py:59-78 | the program crashes exactly for `list` on a corrupt file; it writes the file exactly for a well-formed `add`, and then prints `add`'s message and writes `add`'s collection for the words after `add` joined by spaces; it always prints something otherwise |
| Cli.RunWritesOnlyOnAdd | task_cli.py:66-78 | the file is written if and only if the arguments are `add` followed by at least one word |
| Cli.RunWithoutFileAccess | task_cli.py:60-78 | usage, missing description and unknown command print one fixed line, write nothing and do not depend on the file or the clock |
| Cli.AddDescriptionWords | task_cli.py:70-72 | the stored description, split on spaces, gives back the space-free words typed after `add` |
| Cli.RunList | task_cli.py:74-75 | `list` prints what `list_tasks()` prints and writes nothing |
| Cli.BuyMilkScenario | task_cli.py:8-55 | adding "Buy milk" to no file reports ID 1, and listing afterwards shows `[1] (todo) - Buy milk` |

## Left out

- Checking that `tasks.json` exists, opening, reading and writing it, and
  JSON encoding with `indent=4`: all of this is I/O and library code. The
  file state is the input `LoadResult`, and the written collection is the
  `saved` part of the outcome.
- `datetime.now().isoformat()` reads the clock. It is the opaque string
  parameter `now`.
- Files that decode as JSON but are not a list of complete task records
  (a non-list, a record without `id`, a non-integer `id`). They are outside
  `LoadResult`, which assumes a well-formed list.
- Errors other than a JSON decoding error (unreadable file, failed write,
  invalid UTF-8). They are I/O failures and are not modelled.
- Listing.ListTasks: a corrupt file is the outcome `DecodeError`, and
  `Run` turns it into `Crashed`. The traceback Python prints is not
  modelled.
- Text.ParseInt: it accepts only an optional minus sign followed by
  digits. Python's `int()` also accepts surrounding whitespace, a `+` sign
  and underscores. The model uses it only to read printed IDs back.
- Update, delete, mark-in-progress and a `done` status are not commands of
  `task_cli.py`, so there is no behaviour to model.
- Console encoding: the messages are modelled as strings that include the
  emoji characters. The bytes written to the terminal are not modelled.

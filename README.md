# Duke to-do tracker: parser, task record and list driver

Duke is a small console to-do tracker that answers in Spanish. The user
types one command per line: `list`, `bye`, `done <n>`, `delete <n>`,
`todo <description>`, `deadline <description> /by <date>` and
`event <description> /at <date>`. This project models three parts of it
and proves properties about them:

- **The command parser** (`Parser.parse` and `Parser.handle`). It turns
  one line into exactly one command. It splits the line at the first space
  into a keyword and a rest, dispatches on the keyword, and turns the
  1-based number of `done`/`delete` into an index. For a deadline or an
  event, it cuts the rest at the first `/by` or `/at` marker into a
  description and a date text. That text must match `dd/MM/yyyy HHmm`.
  Every malformed line becomes an `IncorrectCommand` carrying the message
  shown to the user. The single exception the parser can raise is also
  modelled: a rest that ends with its marker makes `substring` run past
  the end.
- **The task record** (`Task`): a mutable object with a description, a
  completion flag, a date, a recurrence flag and a frequency. Completion
  only ever moves from false to true.
- **The earlier console driver** (`Duke.main`): a loop that reads a
  keyword and updates an `ArrayList` of tasks in place. `list` shows the
  list, `done` marks a task, `todo`/`deadline`/`event` append one, and
  `bye` clears the list. A deadline or event keeps its date text as text,
  and the date text starts three characters after the marker rather than
  the parser's four.

The files:

- `wrappers.dfy`: the `Option` type.
- `text.dfy`: what the Java code relies on from `String` and `Integer`.
  That is `indexOf` (for a character and for a string) and `contains`
  (stated as a predicate with no search in it). It also has `int`
  arithmetic modulo 2^32, `Integer.parseInt` and `Integer.toString`.
- `dates.dfy`: the `dd/MM/yyyy HHmm` date-time format, both parsing and
  formatting.
- `tasks.dfy`: the `Task` class. `TaskRecord` is the value of its fields
  at one moment.
- `parser.dfy`: `Parse` as total functions over strings, plus lemmas
  stating what each kind of line parses to.
- `driver.dfy`: one step of the driver loop as pure functions on the
  list's contents, and the `TaskList` class. That class performs the steps
  in place on `Task` objects and is proved to agree with those functions.

Behaviour of the code that the model keeps, though a reader might not
expect it:

- `deadline /by 02/12/2024 1800` (nothing before the marker) is accepted
  with an empty description (`Parser.ParseEmptyDescription`).
- The driver's date text starts at the marker's position plus 3, so it
  keeps the space after the marker. The parser's starts at plus 4.
- The driver's `done` checks only the upper bound of the position.

## Model

| member | source | states |
|---|---|---|
| Text.IndexOfChar | src/main/java/Duke/Parser.java:55-56 | `contains(" ")` / `indexOf(' ')`: None exactly when the character is absent; otherwise a position holding it, with no earlier occurrence |
| Text.IndexOf | src/main/java/Duke/Parser.java:117-120 | `contains`/`indexOf` for a marker: None exactly when the text does not contain it; otherwise an occurrence with none before it |
| Text.MarkerAfterText | src/main/java/Duke/Parser.java:120 | a `/xy` marker placed right after a text without it is found exactly at the join |
| Text.PrefixWithoutPattern | src/main/java/Duke/Parser.java:120-121 | the text before the first occurrence of a pattern does not contain the pattern |
| Text.Wrap32 | src/main/java/Duke/Parser.java:104 | `int` subtraction: the result is congruent to the exact value mod 2^32, equal to it when it fits, and the smallest `int` minus one wraps to the largest |
| Text.ParseInt | src/main/java/Duke/Parser.java:100 | `Integer.parseInt`: a result exists exactly for non-empty ASCII digits, or '+' or '-' followed by them, whose signed value is within the `int` range; the result is that signed value |
| Text.DigitsValueLeadingZero | src/main/java/Duke/Parser.java:100 | a leading zero does not change the value of a digit string |
| Text.ParseIntOtherForms | src/main/java/Duke/Parser.java:100 | "+n" and "0n" parse to n for a non-negative `int` n, "0-n" is rejected, and "-0" is 0 |
| Text.ParseIntToString | src/main/java/Duke/Parser.java:100 | parsing the decimal text of any `int` gives that `int` back |
| Dates.ParseDate | src/main/java/Duke/Parser.java:27 | the `dd/MM/yyyy HHmm` pattern: a result exactly for text of that shape with day 1-31, month 1-12, year at least 1, hour 0-23 and minute 0-59; the result is a valid date-time whose month, year, hour and minute are the typed ones and whose day is the typed day, or the month's last day when the typed day is past it |
| Dates.FormatDate | src/main/java/Duke/Parser.java:27 | formatting a valid date-time with a four-digit year yields text of the pattern's shape |
| Dates.ParseFormatDate | src/main/java/Duke/Parser.java:27 | parsing a formatted date-time returns that date-time |
| Dates.ParseDateExample | src/main/java/Duke/Parser.java:125 | "02/12/2024 1800" is 2 December 2024 at 18:00; ISO-style text is rejected |
| Dates.FormatDateExample | src/main/java/Duke/Parser.java:27 | 2 December 2024 at 18:00 is formatted as "02/12/2024 1800" |
| Dates.ParseDateClampsDay | src/main/java/Duke/Parser.java:125 | 31 February becomes the 28th or, in a leap year, the 29th; day 32 is rejected |
| Tasks.Task.constructor | src/main/java/Task/Task.java:20-34 | a new task holds its description verbatim, not completed, no date, not repeated, no frequency |
| Tasks.Task.CompleteTask | src/main/java/Task/Task.java:56-58 | completion becomes true and no other field changes |
| Tasks.CompleteTaskTwice | src/main/java/Task/Task.java:56-58 | completing twice equals completing once, and a completed task stays completed |
| Tasks.Task.SetTime | src/main/java/Duke.java:92 | setting the schedule changes only the date field |
| Tasks.Task.GetTaskDescription | src/main/java/Task/Task.java:65-67 | returns the stored description unchanged |
| Tasks.Task.GetTime | src/main/java/Task/Task.java:38-40 | returns the stored date unchanged |
| Tasks.Task.GetFrequency | src/main/java/Task/Task.java:42-44 | returns the stored frequency unchanged |
| Parser.SplitCommand | src/main/java/Duke/Parser.java:55-61 | without a space the keyword is the whole line and the rest is empty; with one, the keyword has no space and keyword + " " + rest is the line |
| Parser.Parse | src/main/java/Duke/Parser.java:52-84 | every line yields one outcome; an added task starts not completed and not repeated, with a date exactly when it is not a to-do |
| Parser.Dispatch | src/main/java/Duke/Parser.java:62-83 | the keyword switch; an added task has the same properties as under `Parse` |
| Parser.ArgumentType | src/main/java/Duke/Parser.java:71-80 | a keyword is handed to `handle` exactly when it is one of the five argument keywords |
| Parser.Handle | src/main/java/Duke/Parser.java:92-149 | an empty rest yields the empty-description error before anything else; only deadline and event can throw; every branch returns a command, so the final `return null` is unreachable |
| Parser.HandleDated | src/main/java/Duke/Parser.java:116-146 | no marker yields the missing-date message; it throws only when the rest ends with the marker; an added task's description is the rest's prefix up to the first marker and does not contain it |
| Parser.SplitKeyword | src/main/java/Duke/Parser.java:55-61 | a keyword without spaces followed by " " and a rest splits back into that keyword and rest |
| Parser.ParseList | src/main/java/Duke/Parser.java:63-64 | `list` is a list command whatever follows it |
| Parser.ParseBye | src/main/java/Duke/Parser.java:65-70 | `bye` exits exactly when the rest is empty, and is otherwise the unknown-command error |
| Parser.ParseUnknown | src/main/java/Duke/Parser.java:81-82 | a keyword outside the seven is the unknown-command error, with or without a rest |
| Parser.ArgumentKeywordsDistinct | src/main/java/Duke/Parser.java:18-24 | no argument keyword is `list` or `bye` |
| Parser.ParseEmptyRest | src/main/java/Duke/Parser.java:93-95 | each argument keyword with an empty rest is the empty-description error |
| Parser.ParseTodo | src/main/java/Duke/Parser.java:114-115 | `todo X` adds a to-do whose description is exactly X, spaces included |
| Parser.ParseIndexNotANumber | src/main/java/Duke/Parser.java:98-103 | `done`/`delete` with a rest that is not an `int` yields "Incapaz de completar" |
| Parser.HandleIndex | src/main/java/Duke/Parser.java:97-113 | `handle` turns every text `Integer.parseInt` accepts (bare digits, a `+` or `-` sign, leading zeros) into that number minus one, for both `done` and `delete` |
| Parser.ParseDoneIndex | src/main/java/Duke/Parser.java:97-105 | `done <text>` carries parsed - 1 in `int` arithmetic for every text `parseInt` accepts (`done +3` and `done 03` give 2, `done -0` gives -1), with no range check |
| Parser.ParseDeleteIndex | src/main/java/Duke/Parser.java:106-113 | `delete <text>` carries parsed - 1 in `int` arithmetic for every text `parseInt` accepts, with no range check |
| Parser.ParseDecimalIndex | src/main/java/Duke/Parser.java:97-113 | in particular, `done` or `delete` followed by the decimal text of any `int` n carries n - 1 |
| Parser.ParseListedNumber | src/main/java/Duke/Parser.java:97-113 | the 1-based number i + 1 addresses index i for both `done` and `delete` |
| Parser.DatedLine | src/main/java/Duke/Parser.java:73-78 | a non-empty `deadline`/`event` rest goes to the dated branch with its own marker and message |
| Parser.HandleDatedAfterText | src/main/java/Duke/Parser.java:117-131 | after a description without the marker, the marker and any one character (dropped, space or not), the rest is the date text: a bad date is the date-format error, a good one adds the task with that date |
| Parser.ParseDated | src/main/java/Duke/Parser.java:116-146 | a line built from a description and a formatted date parses back to a task with exactly that description (trailing space included) and date |
| Parser.ParseDatedNoMarker | src/main/java/Duke/Parser.java:117-119 | a deadline or event rest without its marker yields the missing-date message of its kind |
| Parser.ParseDatedBadDate | src/main/java/Duke/Parser.java:124-128 | date text that does not fit the pattern yields the date-format error and no task |
| Parser.ParseMarkerAtEnd | src/main/java/Duke/Parser.java:120-122 | a rest ending with its marker makes the parser throw (`substring` past the end) |
| Parser.ThrowsOnlyAtMarkerEnd | src/main/java/Duke/Parser.java:120-122 | conversely, the parser throws only on a `deadline` line whose rest ends with `/by` or an `event` line whose rest ends with `/at` |
| Parser.NoSlashNoMarker | src/main/java/Duke/Parser.java:117 | a text without '/' contains no marker |
| Parser.ParseEmptyDescription | src/main/java/Duke/Parser.java:116-131 | `deadline /by <date>` adds a deadline with an empty description |
| Driver.Numbered | src/main/java/Duke.java:34-35 | entry i carries number i + 1 and the i-th task |
| Driver.ListSpec | src/main/java/Duke.java:28-40 | the empty-list error exactly when the list is empty; otherwise every task, numbered from 1 in order |
| Driver.DoneSpec | src/main/java/Duke.java:45-58 | the size never changes and every task only gains completion; a position below the size completes exactly that task; a position at or past the size is the no-such-task error with nothing changed; a negative position or an unreadable number throws |
| Driver.TodoSpec | src/main/java/Duke.java:59-74 | an empty remainder is an error and adds nothing; otherwise one to-do holding the whole remainder is appended at the end |
| Driver.CutAtMarker | src/main/java/Duke.java:84-87 | None exactly when the remainder lacks the marker; otherwise the remainder is the description, the marker and the date text, and the description does not contain the marker |
| Driver.DatedSpec | src/main/java/Duke.java:75-126 | an empty remainder or a missing marker is an error; otherwise either nothing changes and an error is reported, or one task is appended whose description (without the marker), the marker and its non-empty date text make up the remainder |
| Driver.Apply | src/main/java/Duke.java:27-133 | `bye` clears the list; an unrecognised keyword is an error with nothing changed; `list` changes nothing |
| Driver.DatedAppends | src/main/java/Duke.java:84-93 | a description without the marker, the marker and non-empty date text append exactly one task with that description and date text |
| Driver.DatedEmptyText | src/main/java/Duke.java:88-90 | a remainder ending with its first marker is the missing-date error and adds nothing |
| Driver.Stops | src/main/java/Duke.java:134-136 | the loop stops exactly when the step threw, the keyword is `bye`, or an adding keyword's remainder (which overwrites the input variable) is "bye"; only `done` can throw |
| Driver.RunSpec | src/main/java/Duke.java:25-138 | the loop consumes at most its input, all of it when the input runs out, and at least one request when it stops early |
| Driver.DoneIdempotent | src/main/java/Duke.java:45-58 | marking the same number done twice gives the same list as once |
| Driver.StepExtends | src/main/java/Duke.java:27-133 | every step but `bye` keeps each task in place, only gaining completion, and can only append |
| Driver.ExtendsTransitive | src/main/java/Duke.java:25-138 | keeping tasks in place composes over successive steps |
| Driver.RunExtends | src/main/java/Duke.java:25-138 | over a whole run each task keeps its place and once completed stays so, unless the run ended with a `bye` that emptied the list |
| Driver.RunStopsAtBye | src/main/java/Duke.java:134-136 | no request before the last consumed one is a `bye`, a `bye` anywhere in the input ends the run before the input runs out, and a run that threw ended on a `done` |
| Driver.ByeEndsRun | src/main/java/Duke.java:41-44 | a `bye` ends the run at once with an empty list |
| Driver.Snapshot | src/main/java/Duke.java:19 | the list's contents are its task objects' field values, in order |
| Driver.TaskList.constructor | src/main/java/Duke.java:19 | a new list is empty |
| Driver.TaskList.ListTasks | src/main/java/Duke.java:28-40 | its report is `ListSpec` of the contents |
| Driver.TaskList.Clear | src/main/java/Duke.java:41-44 | the list becomes empty |
| Driver.TaskList.MarkDone | src/main/java/Duke.java:45-58 | the same task objects remain, and the contents and report are those of `DoneSpec` |
| Driver.TaskList.Append | src/main/java/Duke.java:67 | the new task object is added at the end and the contents grow by its value |
| Driver.TaskList.AddTodo | src/main/java/Duke.java:59-74 | the existing task objects stay in place, and the contents and report are those of `TodoSpec` |
| Driver.TaskList.AddDated | src/main/java/Duke.java:75-126 | the existing task objects stay in place, and the contents and report are those of `DatedSpec` for the deadline or event kind |
| Driver.TaskList.Execute | src/main/java/Duke.java:27-137 | the contents and report are those of `Apply`, every step but `bye` keeps the existing task objects in place, and it stops exactly when `Stops` says |
| Driver.TaskList.Run | src/main/java/Duke.java:25-138 | the final contents, the number of requests consumed and how the loop ended are those of `RunSpec` |

## Left out

- Console input and output are not modelled. `Scanner.next`, `nextInt` and `nextLine` are replaced by a `Request` that carries the keyword, the `int` that `nextInt` would read (None when it would throw) and the text `nextLine` would return. `System.out.println` is replaced by a `Report` value. How a crash of `nextInt` leaves the scanner positioned is not modelled. Nor is the `NoSuchElementException` of `nextLine` when `todo`, `deadline` or `event` is the last token of the input: a `Request` always carries a remainder.
- The rendering of tasks (`toString`) and `saveFormat` are not modelled. The `Task` subclasses and the command classes are not part of this model. Their constructors are taken as plain data: `Todo`/`Deadline`/`Event` become the `kind` tag and commands become a datatype.
- `setRepeated` is abstract in `Task` and its implementations are not part of this model, so it is left out.
- The `position` argument the driver passes to the subclass constructors is not stored in the model, because the subclasses are not part of this model.
- `Tasks.Task.SetTime`: the subclasses' `setTime` is not part of this model. It is modelled as a plain assignment of the date field. The driver's string overload stores the date text as text (`AsText`).
- `Tasks.Frequency`: `Parser.FrequencyOfRecurrence` is not part of this model, so a frequency is an uninterpreted tag.
- `Dates.ParseDate`: years with more than four digits or a sign are not accepted, although java.time allows them with `yyyy`. Hour 24 and other lenient forms are not resolved.
- `Text.ParseInt`: non-ASCII Unicode digits, which `Integer.parseInt` also accepts, are not modelled.
- Strings are sequences of `char`. Java's UTF-16 code units and surrogate pairs are not distinguished.
- The execution of `DeleteCommand` and of the other command classes is not part of this model. Only the command values the parser builds are modelled.
- Uncaught exceptions are outcomes (`StringIndexOutOfBounds`, `Uncaught`, `Threw`), not Java exception objects.

# ekud task record, in Dafny

This project models the task record of the ekud task tracker
(`src/main/java/ekud/task/Task.java`). A task has a non-empty description
and a mutable completion flag, `isDone`. It comes in three variants: Todo,
Deadline (with a `dueBy` field) and Event (with `from` and `to` fields).
The model covers:

- the task's renderers: status icon, `toString` and the save-line fragment;
- its keyword search;
- `markAsDone` and `markAsUndone`;
- the two ways a task is made: `getTaskFromSave` reads a line of the save
  file, and `getTaskFromTokens` reads a tokenized user command.

Modules:

- `Wrappers`: `Option` (Java's `null`) and `Result` (a value or a thrown exception).
- `JavaStrings`: the `String` operations the code calls.
  - `trim` strips characters up to U+0020.
  - `split("(\\s\\|\\s)")` has the semantics of `Pattern.split` with limit 0.
    Matches are leftmost and non-overlapping. A string with no match comes
    back whole. Otherwise trailing empty fields are dropped.
  - `toLowerCase` and `contains` are also modelled.
- `Components`: the `Ui` sink, a class whose only state is the log of
  messages passed to `printOutput`.
- `Tasks`: the variants (`Kind`), the task's value (`TaskValue`) and the
  `Task` class. `description` is a `const` of a non-empty string type and
  `isDone` is a `var`. This module also holds both parsers.
  - `getTaskFromSave` is split into a pure classification, `ParseFields`
    (reached through `ParseSave`). The imperative methods `TaskFromFields`
    (the `try` block) and `GetTaskFromSave` (trim, split, and the `catch`
    that reports one warning) are proved against it.
  - `getTaskFromTokens` is `Dispatch` plus `CommandOutcome`, with the
    method `GetTaskFromTokens` proved against them.
- `TaskProperties`: lemmas that relate several operations. These are the
  save-line round trips, the rejected lines, case-insensitive dispatch and
  the examples of the command grammar.

A Java constructor that throws is modelled as `Task.Create`, which returns
a `Result`. The Dafny constructor only receives a description that has
already passed `CheckDescription`, so no task with an empty description
ever exists.

## Model

| member | source | states |
|---|---|---|
| `Tasks.EmptyDescriptionMessage` | src/main/java/ekud/task/Task.java:63 | Each variant's empty-description message is non-empty, and each message belongs to exactly one variant. |
| `Tasks.CheckDescription` | src/main/java/ekud/task/Task.java:13-16 | A description passes exactly when it is present and non-empty. A failure carries the variant's own empty-description message. |
| `Tasks.Task.constructor` | src/main/java/ekud/task/Task.java:17-18 | A new task has the given variant and description and is not done. |
| `Tasks.Task.Create` | src/main/java/ekud/task/Task.java:13-19 | Construction throws exactly on a null or empty description, with that variant's message. Otherwise it yields a fresh task with that description and `isDone == false`. |
| `Tasks.Task.SaveTaskString` | src/main/java/ekud/task/Task.java:65-68 | The save fragment starts with `1` when the task is done and `0` when it is not. Then come the space-pipe-space delimiter and the description verbatim. |
| `Tasks.Task.StatusIcon` | src/main/java/ekud/task/Task.java:74-76 | The icon is one character. It is `X` exactly when the task is done, and a single space when it is not. |
| `Tasks.Task.MarkAsDone` | src/main/java/ekud/task/Task.java:78-80 | Afterwards the task is done whatever it was before, so a second call changes nothing. Variant and description are unchanged. |
| `Tasks.Task.MarkAsUndone` | src/main/java/ekud/task/Task.java:82-84 | Afterwards the task is not done whatever it was before. Variant and description are unchanged. |
| `Tasks.Task.HasMatchingDescription` | src/main/java/ekud/task/Task.java:92-94 | True exactly when the keyword occurs as a contiguous run of characters at some position of the description. |
| `Tasks.Task.ToString` | src/main/java/ekud/task/Task.java:97-100 | The text is `[`, the status icon, `] `, then the description, so it contains the description verbatim. |
| `Tasks.SaveWarning` | src/main/java/ekud/task/Task.java:42-45 | The warning for a rejected line contains that (trimmed) line. |
| `Tasks.SaveFields` | src/main/java/ekud/task/Task.java:23-24 | A trimmed line with no match of the delimiter gives the one field holding the trimmed line. No field contains a match. |
| `Tasks.ParseFields` | src/main/java/ekud/task/Task.java:26-39 | The result is an unknown type exactly when there are at least two fields and the tag is not `T`, `D` or `E`. A loaded task has the tag of its variant and is done exactly when field 1 is `1`. Its description is field 2 and its own fields follow in order; further fields are ignored. |
| `Tasks.ParseSave` | src/main/java/ekud/task/Task.java:21-39 | A line is of unknown type exactly when it splits into at least two fields and the tag is not `T`, `D` or `E`. Fewer than two fields, or a known tag with an empty description field, is malformed. A loaded task has the tag of its variant, is done exactly when field 1 is `1`, and takes its description and own fields from the fields that follow. |
| `Tasks.TaskFromFields` | src/main/java/ekud/task/Task.java:26-39 | Given the fields that `ParseFields` loads, the method returns a fresh task with that value. It returns null without rejecting for an unknown tag. It rejects (the caught exception) exactly on a malformed line. |
| `Tasks.GetTaskFromSave` | src/main/java/ekud/task/Task.java:21-48 | A loaded line yields a fresh task with the parsed value and no message. An unknown tag yields null and no message. A malformed line yields null and appends exactly one warning, naming the trimmed line, to the Ui log. |
| `Tasks.Lookup` | src/main/java/ekud/task/Task.java:52-58 | `HashMap.get` yields a value exactly when the key is present, and that value is the one stored under the key. |
| `Tasks.Dispatch` | src/main/java/ekud/task/Task.java:52-60 | Succeeds exactly when the lower-cased command is `todo`, `deadline` or `event`, and picks the variant that word names. A deadline's `dueBy` is the `/by` token; an event's `from`/`to` are the `/from`/`/to` tokens. Any other command gives the unrecognised-type exception. |
| `Tasks.CommandOutcome` | src/main/java/ekud/task/Task.java:51-60 | A task is made exactly when the command is known and `argument` is present and non-empty. It has the dispatched variant, `argument` as its description, and is not done. An unknown command gives the unrecognised-type exception; otherwise a failure is the variant's empty-description message. |
| `Tasks.GetTaskFromTokens` | src/main/java/ekud/task/Task.java:51-60 | Throws exactly when `CommandOutcome` fails, with its exception. Otherwise it returns a fresh task of `CommandOutcome`'s value. |
| `Components.Ui.PrintOutput` | src/main/java/ekud/task/Task.java:46 | Reporting a message appends it to the log and changes nothing else. |
| `JavaStrings.Trim` | src/main/java/ekud/task/Task.java:23 | The trimmed line is a contiguous part of the line, and every character of the line before or after that part is at or below U+0020. The trimmed line neither starts nor ends with such a character. A line that already does neither is unchanged. |
| `JavaStrings.SkipBlanks` | src/main/java/ekud/task/Task.java:23 | The start index of `trim`: every character skipped is a blank, and the character it stops at is not (or the line has ended). |
| `JavaStrings.CutBlanks` | src/main/java/ekud/task/Task.java:23 | The end index of `trim`: every character cut is a blank, and the last character kept is not (or nothing is kept). |
| `JavaStrings.SplitFrom` | src/main/java/ekud/task/Task.java:24 | Scanning yields at least one field, and no field contains a match of the delimiter pattern. |
| `JavaStrings.SplitFromCuts` | src/main/java/ekud/task/Task.java:24 | The scanned fields, put back together with the three-character matches found between them, rebuild the scanned text exactly. Each such match is the leftmost one after its field. |
| `JavaStrings.Split` | src/main/java/ekud/task/Task.java:24 | A line with no match of the delimiter comes back as the one field holding the whole line. Otherwise the result is the scanned fields with only empty fields dropped from the end, and it ends in a non-empty field unless it is empty. No field contains a match. |
| `JavaStrings.DropTrailingEmpty` | src/main/java/ekud/task/Task.java:24 | The result is a prefix of the fields. Every field dropped is empty, and the result is empty or ends in a non-empty field. |
| `JavaStrings.SplitTrimJoin` | src/main/java/ekud/task/Task.java:23-24 | Fields joined with the space-pipe-space delimiter are read back unchanged by trim-then-split. This holds when no field but the last can form a match with the delimiter after it, the last field holds no match, and the line starts and ends with a character `trim` keeps. |
| `JavaStrings.SplitFromJoin` | src/main/java/ekud/task/Task.java:24 | Scanning a joined line gives back exactly its fields, under the same conditions on the fields. |
| `JavaStrings.ToLower` | src/main/java/ekud/task/Task.java:52 | Lower-casing keeps the length and maps each character through ASCII lower-casing. |
| `JavaStrings.LowerChar` | src/main/java/ekud/task/Task.java:52 | An ASCII upper-case letter becomes its lower-case letter. Every other character is unchanged. The result is never an ASCII upper-case letter. |
| `JavaStrings.Contains` | src/main/java/ekud/task/Task.java:93 | `contains` holds exactly when the keyword occurs at some position. |
| `JavaStrings.ContainsNeedsFirstChar` | src/main/java/ekud/task/Task.java:93 | A keyword whose first character does not appear in the text is not contained in it. |
| `TaskProperties.SaveLineRoundTrip` | src/main/java/ekud/task/Task.java:21-39 | For every variant: a line made of the tag, the completion digit, the description and the variant's own fields, joined by the delimiter, is loaded as exactly that task value. This holds whenever the description and own fields can be joined: none but the last forms a match with the delimiter after it, and the last holds no match and ends in a character `trim` keeps. |
| `TaskProperties.TodoSaveRoundTrip` | src/main/java/ekud/task/Task.java:65-68 | The tag `T` and a delimiter followed by a todo's `getSaveTaskString` is read back by `getTaskFromSave` as a todo with the same description and flag. This holds when the description holds no delimiter and does not end in a blank. |
| `TaskProperties.DelimiterInDescriptionIsNotPreserved` | src/main/java/ekud/task/Task.java:24-29 | The delimiter is not escaped. A todo whose description is `a`, the delimiter, then `b` comes back from its own save line described as `a`. |
| `TaskProperties.ParseFieldsComplete` | src/main/java/ekud/task/Task.java:26-39 | The converse of `ParseFields`: fields with a variant's tag, a description and that variant's own fields load as exactly that task. |
| `TaskProperties.EmptyLineIsMalformed` | src/main/java/ekud/task/Task.java:22-27 | The empty line is malformed, so it yields null and one warning. |
| `TaskProperties.TagOnlyLineIsMalformed` | src/main/java/ekud/task/Task.java:22-27 | The line `T` is malformed. |
| `TaskProperties.MissingDescriptionLineIsMalformed` | src/main/java/ekud/task/Task.java:22-29 | The line made of `T`, the delimiter and `1` is malformed. |
| `TaskProperties.TooFewFieldsAreMalformed` | src/main/java/ekud/task/Task.java:26-31 | Fewer than two fields is malformed. So is a tag `T`, `D` or `E` with fewer fields than its variant reads. |
| `TaskProperties.EmptyDescriptionLineIsMalformed` | src/main/java/ekud/task/Task.java:28-31 | A known tag whose description field is empty is malformed. |
| `TaskProperties.UnknownTagLine` | src/main/java/ekud/task/Task.java:32 | The one line `X`, the delimiter, `1` yields null without a warning. |
| `TaskProperties.IconAgreesWithSaveFlag` | src/main/java/ekud/task/Task.java:65-76 | The status icon is `X` exactly when the save fragment starts with `1`. |
| `TaskProperties.KeywordIsCaseSensitive` | src/main/java/ekud/task/Task.java:92-94 | A task described as `Buy Milk` matches `Milk` but not `milk`. |
| `TaskProperties.DispatchIgnoresCase` | src/main/java/ekud/task/Task.java:52 | Two commands that lower-case to the same word dispatch the same way. |
| `TaskProperties.TodoCommandExample` | src/main/java/ekud/task/Task.java:52-56 | The command `todo`, `TODO` or `ToDo` with the argument `buy milk` gives an undone todo described `buy milk`. |
| `TaskProperties.DeadlineCommandExample` | src/main/java/ekud/task/Task.java:52-57 | `deadline` with `submit report` and a `/by` token gives an undone deadline due at that token. |
| `TaskProperties.UnknownCommandExample` | src/main/java/ekud/task/Task.java:52-59 | `frobnicate` throws the unrecognised-type exception. |
| `TaskProperties.MissingArgumentExample` | src/main/java/ekud/task/Task.java:52-56 | `todo` without an argument throws the todo's empty-description message. |

## Left out

- `src/main/java/Ekud.java` is not part of this model. It is the console loop: greeting, echo, goodbye and the `bye` check.
- `Ui.printOutput` is modelled only as appending to a log. How the message is formatted and printed is not modelled.
- `TodoTask`, `DeadlineTask` and `EventTask` are not part of this model.
  - `dueBy`, `from` and `to` are uninterpreted strings, and no date parsing is modelled.
  - Their empty-description texts are placeholders. The model relies only on each variant having its own.
  - Their overrides of `getSaveTaskString` and `toString` are not modelled. So for Deadline and Event the round trip is stated over the field layout of a save line, not over their renderers.
- Tasks.Dispatch: requires `command` to be present (the source throws `NullPointerException` otherwise). It also requires `/by` for a deadline command, and `/from` and `/to` for an event command. With those keys missing, the source passes `null` to constructors whose behaviour is not shown.
- Tasks.CommandOutcome: has the same key requirements as `Dispatch`, for the same reason.
- Tasks.GetTaskFromTokens: has the same key requirements as `Dispatch`, for the same reason.
- JavaStrings.ToLower: lower-cases ASCII letters only. Java's locale- and Unicode-aware `toLowerCase` is not modelled.
- Regular expressions in general are not modelled. Only the one pattern `\s\|\s` is, with `\s` as Java's default class (space, tab, line feed, vertical tab, form feed, carriage return).
- The accessor `isDone()` (src/main/java/ekud/task/Task.java:70-72) is a plain field read. It appears as the `isDone` field of `Task`.
- Exceptions thrown by the variant constructors other than the empty-description one are not modelled. Whether a `dueBy`, `from` or `to` that fails to parse makes `getTaskFromSave` reject the line depends on those constructors. If they wrap the failure in an `EkudException`, the `catch` at src/main/java/ekud/task/Task.java:41 reports it like any malformed line.
- A null save line is not modelled, since a Dafny string cannot be null. In the source, `trim` at src/main/java/ekud/task/Task.java:23 would then throw a `NullPointerException`, which the `catch` at line 41 does not catch.

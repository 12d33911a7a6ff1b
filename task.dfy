/**
 * The task record of `ekud.task.Task`: its three variants, its renderers,
 * the `isDone` flag, and the two ways a task is made: from a line of the
 * save file and from a tokenized user command.
 */
module Tasks {
  import opened Wrappers
  import opened JavaStrings
  import opened Components

  /** The variant of a task with its own fields, kept as uninterpreted text. */
  datatype Kind = Todo | Deadline(dueBy: string) | Event(from: string, to: string)

  /** A task description: never empty once a task exists. */
  type Description = s: string | s != "" witness "?"

  /** The observable value of a task. */
  datatype TaskValue = TaskValue(kind: Kind, description: Description, isDone: bool)

  /** `EkudException`, the exception every failure of this code throws. */
  datatype EkudException = EkudException(message: string)

  // The empty-description texts of TodoTask, DeadlineTask and EventTask; only
  // the fact that each variant has its own is modelled.
  const TODO_EMPTY_MESSAGE := "The description of a todo cannot be empty."
  const DEADLINE_EMPTY_MESSAGE := "The description of a deadline cannot be empty."
  const EVENT_EMPTY_MESSAGE := "The description of an event cannot be empty."

  /** `getEmptyDescriptionErrorMessage`, as each variant overrides it. */
  function EmptyDescriptionMessage(kind: Kind): (m: string)
    ensures m != ""
    ensures m == TODO_EMPTY_MESSAGE <==> kind.Todo?
    ensures m == DEADLINE_EMPTY_MESSAGE <==> kind.Deadline?
    ensures m == EVENT_EMPTY_MESSAGE <==> kind.Event?
  {
    match kind
    case Todo => TODO_EMPTY_MESSAGE
    case Deadline(_) => DEADLINE_EMPTY_MESSAGE
    case Event(_, _) => EVENT_EMPTY_MESSAGE
  }

  /** The check at the start of the `Task` constructor; `None` is Java's `null`. */
  function CheckDescription(kind: Kind, description: Option<string>): (r: Result<Description, EkudException>)
    ensures r.Success? <==> description.Some? && description.value != ""
    ensures r.Success? ==> r.value == description.value
    ensures r.Failure? ==> r.error == EkudException(EmptyDescriptionMessage(kind))
  {
    if description.None? || description.value == "" then
      Failure(EkudException(EmptyDescriptionMessage(kind)))
    else
      Success(description.value)
  }

  class Task {
    const kind: Kind
    const description: Description
    var isDone: bool

    /** The abstract value of this task. */
    function Value(): TaskValue
      reads this
    {
      TaskValue(kind, description, isDone)
    }

    /** The part of the `Task` constructor that runs once the description passed its check. */
    constructor (kind: Kind, description: Description)
      ensures Value() == TaskValue(kind, description, false)
    {
      this.kind := kind;
      this.description := description;
      isDone := false;
    }

    /**
     * `new TodoTask(d)`, `new DeadlineTask(d, by)`, `new EventTask(d, from, to)`:
     * throws the variant's own message on a null or empty description, and
     * otherwise yields a fresh task that is not done.
     */
    static method Create(kind: Kind, description: Option<string>) returns (r: Result<Task, EkudException>)
      ensures r.Success? <==> description.Some? && description.value != ""
      ensures r.Success? ==> fresh(r.value) && r.value.Value() == TaskValue(kind, description.value, false)
      ensures r.Failure? ==> r.error == EkudException(EmptyDescriptionMessage(kind))
    {
      var checked := CheckDescription(kind, description);
      if checked.Failure? {
        return Failure(checked.error);
      }
      var task := new Task(kind, checked.value);
      return Success(task);
    }

    /** `getSaveTaskString`: the completion digit, the delimiter, then the description verbatim. */
    function SaveTaskString(): (line: string)
      reads this
      ensures |line| == |description| + 4 && line[4..] == description
      ensures line[1..4] == DELIMITER
      ensures line[0] == (if isDone then '1' else '0')
    {
      (if isDone then "1" else "0") + DELIMITER + description
    }

    /** `getStatusIcon`: one character, `X` exactly when the task is done. */
    function StatusIcon(): (icon: string)
      reads this
      ensures |icon| == 1 && (icon == "X" <==> isDone)
      ensures !isDone ==> icon == " "
    {
      if isDone then "X" else " "
    }

    /** `markAsDone`: the flag is set whatever it was, and nothing else changes. */
    method MarkAsDone()
      modifies this
      ensures Value() == old(Value()).(isDone := true)
    {
      isDone := true;
    }

    /** `markAsUndone`: the flag is cleared whatever it was, and nothing else changes. */
    method MarkAsUndone()
      modifies this
      ensures Value() == old(Value()).(isDone := false)
    {
      isDone := false;
    }

    /** `hasMatchingDescription`: the keyword is a contiguous, case-sensitive part of the description. */
    function HasMatchingDescription(keyword: string): (r: bool)
      reads this
      ensures r <==> exists i :: OccursAt(description, keyword, i)
    {
      Contains(description, keyword)
    }

    /** `toString`: the status icon in brackets, then the description verbatim. */
    function ToString(): (s: string)
      reads this
      ensures |s| == |description| + 4
      ensures s[..4] == "[" + StatusIcon() + "] " && s[4..] == description
      ensures Contains(s, description)
    {
      var s := "[" + StatusIcon() + "] " + description;
      assert OccursAt(s, description, 4);
      s
    }
  }

  // ---------------------------------------------------------------------
  // Reading a task back from one line of the save file (getTaskFromSave)
  // ---------------------------------------------------------------------

  /** What `getTaskFromSave` makes of one line. */
  datatype SaveOutcome =
    | Loaded(task: TaskValue)  // a task is returned
    | UnknownType              // null is returned, nothing is reported
    | Malformed                // null is returned after one warning

  /** The type tag that opens a save line of each variant. */
  function Tag(kind: Kind): string {
    match kind
    case Todo => "T"
    case Deadline(_) => "D"
    case Event(_, _) => "E"
  }

  const SAVE_TAGS: set<string> := {"T", "D", "E"}

  /** The variant's own fields, in the order a save line carries them after the description. */
  function Payload(kind: Kind): seq<string> {
    match kind
    case Todo => []
    case Deadline(dueBy) => [dueBy]
    case Event(from, to) => [from, to]
  }

  /** The fields `getTaskFromSave` reads from a line: trimmed, then split at `\s\|\s`. */
  function SaveFields(line: string): (args: seq<string>)
    ensures NoDelimiter(Trim(line)) ==> args == [Trim(line)]
    ensures forall j :: 0 <= j < |args| ==> NoDelimiter(args[j])
  {
    Split(Trim(line))
  }

  /** The warning reported for a rejected line; `line` is the trimmed line. */
  function SaveWarning(line: string): (message: string)
    ensures Contains(message, line)
  {
    var prefix := "Warning: ekud.task.Task entry { ";
    var message := prefix + line
      + " } is missing required arguments or is incorrectly formatted\nRemoving ekud.task entry...";
    assert OccursAt(message, line, |prefix|);
    message
  }

  /** A variant built from save fields: the constructor's check still applies. */
  function FromFields(kind: Kind, description: string, isDone: bool): SaveOutcome {
    match CheckDescription(kind, Some(description))
    case Success(d) => Loaded(TaskValue(kind, d, isDone))
    case Failure(_) => Malformed
  }

  /**
   * The classification `getTaskFromSave` makes of the fields of a line.
   * Field 0 picks the variant, field 1 is the flag (done exactly when it
   * is `1`), the description and the variant's own fields follow in order
   * and any further fields are ignored. Too few fields, or an empty
   * description, is `Malformed`; an unknown tag with at least two fields is
   * `UnknownType`.
   */
  function ParseFields(args: seq<string>): (r: SaveOutcome)
    ensures r.UnknownType? <==> |args| >= 2 && args[0] !in SAVE_TAGS
    ensures r.Loaded? ==>
      var kind := r.task.kind;
      && |args| >= 3 + |Payload(kind)|
      && args[0] == Tag(kind)
      && (r.task.isDone <==> args[1] == "1")
      && args[2] == r.task.description
      && args[3..3 + |Payload(kind)|] == Payload(kind)
  {
    if |args| < 2 then Malformed
    else
      var isDone := args[1] == "1";
      if args[0] == "T" then
        if |args| < 3 then Malformed else FromFields(Todo, args[2], isDone)
      else if args[0] == "D" then
        if |args| < 4 then Malformed else FromFields(Deadline(args[3]), args[2], isDone)
      else if args[0] == "E" then
        if |args| < 5 then Malformed else FromFields(Event(args[3], args[4]), args[2], isDone)
      else
        UnknownType
  }

  /** `getTaskFromSave`, as a value: the classification of the trimmed, split line. */
  function ParseSave(line: string): (r: SaveOutcome)
    ensures var args := SaveFields(line);
      r.UnknownType? <==> |args| >= 2 && args[0] !in SAVE_TAGS
    ensures var args := SaveFields(line);
      |args| < 2 || (|args| >= 3 && args[0] in SAVE_TAGS && args[2] == "") ==> r.Malformed?
    ensures var args := SaveFields(line);
      r.Loaded? ==>
        && |args| >= 3 + |Payload(r.task.kind)|
        && args[0] == Tag(r.task.kind)
        && (r.task.isDone <==> args[1] == "1")
        && args[2] == r.task.description
        && args[3..3 + |Payload(r.task.kind)|] == Payload(r.task.kind)
  {
    ParseFields(SaveFields(line))
  }

  /**
   * The `try` block of `getTaskFromSave`, on the split fields: `rejected`
   * stands for the caught `IndexOutOfBoundsException` or `EkudException`.
   */
  method TaskFromFields(args: seq<string>) returns (task: Task?, rejected: bool)
    ensures ParseFields(args).Loaded? ==>
      !rejected && task != null && fresh(task) && task.Value() == ParseFields(args).task
    ensures ParseFields(args).UnknownType? ==> !rejected && task == null
    ensures ParseFields(args).Malformed? ==> rejected && task == null
  {
    if |args| < 2 {
      return null, true;
    }
    var isDone := args[1] == "1";
    var built: Result<Task, EkudException>;
    if args[0] == "T" {
      if |args| < 3 {
        return null, true;
      }
      built := Task.Create(Todo, Some(args[2]));
    } else if args[0] == "D" {
      if |args| < 4 {
        return null, true;
      }
      built := Task.Create(Deadline(args[3]), Some(args[2]));
    } else if args[0] == "E" {
      if |args| < 5 {
        return null, true;
      }
      built := Task.Create(Event(args[3], args[4]), Some(args[2]));
    } else {
      return null, false;
    }
    if built.Failure? {
      return null, true;
    }
    task := built.value;
    task.isDone := isDone;
    rejected := false;
  }

  /**
   * `getTaskFromSave`: a loaded line gives a fresh task with the parsed
   * value and reports nothing; an unknown tag gives null and reports
   * nothing; a malformed line gives null and reports exactly one warning
   * naming the trimmed line.
   */
  method GetTaskFromSave(taskSaveString: string, ui: Ui) returns (task: Task?)
    modifies ui
    ensures ParseSave(taskSaveString).Loaded? ==>
      task != null && fresh(task) && task.Value() == ParseSave(taskSaveString).task && ui.log == old(ui.log)
    ensures ParseSave(taskSaveString).UnknownType? ==> task == null && ui.log == old(ui.log)
    ensures ParseSave(taskSaveString).Malformed? ==>
      task == null && ui.log == old(ui.log) + [SaveWarning(Trim(taskSaveString))]
  {
    var line := Trim(taskSaveString);
    var rejected;
    task, rejected := TaskFromFields(Split(line));
    if rejected {
      ui.PrintOutput(SaveWarning(line));
    }
  }

  // ---------------------------------------------------------------------
  // Making a task from a tokenized command (getTaskFromTokens)
  // ---------------------------------------------------------------------

  /** `HashMap.get`: the value under `key`, or null. */
  function Lookup(tokens: map<string, string>, key: string): (r: Option<string>)
    ensures r.Some? <==> key in tokens
    ensures r.Some? ==> r.value == tokens[key]
  {
    if key in tokens then Some(tokens[key]) else None
  }

  /**
   * The keys `getTaskFromTokens` reads without a null check: `command`
   * always, and the variant fields of a deadline or event command.
   */
  predicate HasRequiredKeys(tokens: map<string, string>) {
    && "command" in tokens
    && (ToLower(tokens["command"]) == "deadline" ==> "/by" in tokens)
    && (ToLower(tokens["command"]) == "event" ==> "/from" in tokens && "/to" in tokens)
  }

  /** The command word that makes each variant. */
  function CommandWord(kind: Kind): string {
    match kind
    case Todo => "todo"
    case Deadline(_) => "deadline"
    case Event(_, _) => "event"
  }

  const UNRECOGNIZED_TASK_TYPE :=
    EkudException("Wow! What is this type of ekud.task?\nI'm not sure how to process this")

  /**
   * The `switch` of `getTaskFromTokens`: the lower-cased command picks the
   * variant and the token map supplies its fields; any other command throws.
   */
  function Dispatch(tokens: map<string, string>): (r: Result<Kind, EkudException>)
    requires HasRequiredKeys(tokens)
    ensures r.Success? <==> ToLower(tokens["command"]) in {"todo", "deadline", "event"}
    ensures r.Success? ==> CommandWord(r.value) == ToLower(tokens["command"])
    ensures r.Success? && r.value.Deadline? ==> r.value.dueBy == tokens["/by"]
    ensures r.Success? && r.value.Event? ==> r.value.from == tokens["/from"] && r.value.to == tokens["/to"]
    ensures r.Failure? ==> r.error == UNRECOGNIZED_TASK_TYPE
  {
    var command := ToLower(tokens["command"]);
    if command == "todo" then Success(Todo)
    else if command == "deadline" then Success(Deadline(tokens["/by"]))
    else if command == "event" then Success(Event(tokens["/from"], tokens["/to"]))
    else Failure(UNRECOGNIZED_TASK_TYPE)
  }

  /**
   * `getTaskFromTokens`, as a value: an unknown command throws the
   * unrecognised-type exception; a known one builds its variant from
   * `argument`, which throws the variant's empty-description message when
   * `argument` is missing or empty; a task made here is never done.
   */
  function CommandOutcome(tokens: map<string, string>): (r: Result<TaskValue, EkudException>)
    requires HasRequiredKeys(tokens)
    ensures r.Success? <==> Dispatch(tokens).Success? && "argument" in tokens && tokens["argument"] != ""
    ensures r.Success? ==>
      && Dispatch(tokens) == Success(r.value.kind)
      && r.value.description == tokens["argument"]
      && !r.value.isDone
    ensures Dispatch(tokens).Failure? ==> r == Failure(UNRECOGNIZED_TASK_TYPE)
    ensures Dispatch(tokens).Success? && r.Failure? ==>
      r.error == EkudException(EmptyDescriptionMessage(Dispatch(tokens).value))
  {
    match Dispatch(tokens)
    case Failure(e) => Failure(e)
    case Success(kind) =>
      match CheckDescription(kind, Lookup(tokens, "argument"))
      case Failure(e) => Failure(e)
      case Success(d) => Success(TaskValue(kind, d, false))
  }

  /** `getTaskFromTokens`: throws exactly when `CommandOutcome` does, and otherwise returns a fresh task of that value. */
  method GetTaskFromTokens(tokens: map<string, string>) returns (r: Result<Task, EkudException>)
    requires HasRequiredKeys(tokens)
    ensures r.Success? <==> CommandOutcome(tokens).Success?
    ensures r.Success? ==> fresh(r.value) && r.value.Value() == CommandOutcome(tokens).value
    ensures r.Failure? ==> r.error == CommandOutcome(tokens).error
  {
    var command := ToLower(tokens["command"]);
    var argument := Lookup(tokens, "argument");
    if command == "todo" {
      r := Task.Create(Todo, argument);
    } else if command == "deadline" {
      r := Task.Create(Deadline(tokens["/by"]), argument);
    } else if command == "event" {
      r := Task.Create(Event(tokens["/from"], tokens["/to"]), argument);
    } else {
      r := Failure(UNRECOGNIZED_TASK_TYPE);
    }
  }
}

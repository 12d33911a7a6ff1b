/** What the task code promises across several calls: save-line round trips, rejections, dispatch. */
module TaskProperties {
  import opened Wrappers
  import opened JavaStrings
  import opened Tasks

  /** The fields of a save line for `v`: tag, completion digit, description, then the variant's own fields. */
  function SaveRecordFields(v: TaskValue): seq<string> {
    [Tag(v.kind), if v.isDone then "1" else "0", v.description] + Payload(v.kind)
  }

  /**
   * Any save line written field by field for a task value is read back as
   * that value, for every variant, provided its text survives the delimiter.
   */
  lemma {:induction false} SaveLineRoundTrip(v: TaskValue)
    requires Joinable([v.description] + Payload(v.kind))
    ensures ParseSave(Join(SaveRecordFields(v))) == Loaded(v)
  {
    var fields := SaveRecordFields(v);
    var user := [v.description] + Payload(v.kind);
    assert fields == [fields[0], fields[1]] + user;
    forall k | 0 <= k < |fields| - 1 ensures Separable(fields[k]) {
      if k < 2 {
        assert !DelimiterAt(fields[k] + DELIMITER, 0);
      } else {
        assert fields[k] == user[k - 2];
      }
    }
    assert fields[|fields| - 1] == user[|user| - 1];
    SplitTrimJoin(fields);
    ParseFieldsComplete(fields, v);
  }

  /**
   * The Todo round trip of `getSaveTaskString`: prefixed with `T | ` and
   * read back by `getTaskFromSave`, a todo's save string gives a todo with
   * the same description and completion flag.
   */
  lemma TodoSaveRoundTrip(t: Tasks.Task)
    requires t.kind == Todo
    requires NoDelimiter(t.description) && !IsBlank(t.description[|t.description| - 1])
    ensures ParseSave("T | " + t.SaveTaskString()) == Loaded(t.Value())
  {
    var v := t.Value();
    assert SaveRecordFields(v) == ["T", if t.isDone then "1" else "0", t.description];
    var flag := if t.isDone then "1" else "0";
    assert Join([flag, t.description]) == flag + DELIMITER + t.description;
    assert Join(SaveRecordFields(v)) == "T" + DELIMITER + (flag + DELIMITER + t.description);
    assert t.SaveTaskString() == flag + DELIMITER + t.description;
    var line := "T | " + t.SaveTaskString();
    assert line == "T" + DELIMITER + (flag + DELIMITER + t.description);
    assert [t.description] + Payload(v.kind) == [t.description];
    SaveLineRoundTrip(v);
  }

  /**
   * The delimiter is not escaped: a todo whose description holds ` | `
   * comes back from its own save line cut short at the delimiter.
   */
  lemma DelimiterInDescriptionIsNotPreserved(t: Tasks.Task)
    requires t.kind == Todo && t.description == "a | b" && !t.isDone
    ensures ParseSave("T | " + t.SaveTaskString()) == Loaded(TaskValue(Todo, "a", false))
  {
    var fields := ["T", "0", "a", "b"];
    assert Separable("T") by {
      assert !DelimiterAt("T" + DELIMITER, 0);
    }
    assert Separable("0") by {
      assert !DelimiterAt("0" + DELIMITER, 0);
    }
    assert Separable("a") by {
      assert !DelimiterAt("a" + DELIMITER, 0);
    }
    assert Storable(fields);
    assert Join(fields[3..]) == "b";
    assert Join(fields[2..]) == "a" + DELIMITER + "b";
    assert Join(fields[1..]) == "0" + DELIMITER + ("a" + DELIMITER + "b");
    var line := "T | " + t.SaveTaskString();
    assert line == Join(fields);
    SplitTrimJoin(fields);
    assert SaveFields(line) == fields;
    assert ParseFields(fields) == Loaded(TaskValue(Todo, "a", false));
  }

  /**
   * The converse of what `ParseFields` promises of a loaded line: fields
   * that carry a variant's tag, a description and that variant's own fields
   * are loaded as exactly that task.
   */
  lemma ParseFieldsComplete(args: seq<string>, v: TaskValue)
    requires |args| >= 3 + |Payload(v.kind)|
    requires args[0] == Tag(v.kind) && (v.isDone <==> args[1] == "1") && args[2] == v.description
    requires args[3..3 + |Payload(v.kind)|] == Payload(v.kind)
    ensures ParseFields(args) == Loaded(v)
  {
    match v.kind
    case Todo =>
    case Deadline(_) =>
      assert args[3] == args[3..4][0];
    case Event(_, _) =>
      assert args[3] == args[3..5][0] && args[4] == args[3..5][1];
  }

  /** The fields of a short line read back as written. */
  lemma {:induction false} ShortLineFields(tag: string, flag: string)
    requires |tag| == 1 && |flag| == 1 && !IsBlank(tag[0]) && !IsBlank(flag[0])
    ensures SaveFields(tag + DELIMITER + flag) == [tag, flag]
  {
    assert Separable(tag) by {
      assert !DelimiterAt(tag + DELIMITER, 0);
    }
    assert Join([tag, flag]) == tag + DELIMITER + flag;
    SplitTrimJoin([tag, flag]);
  }

  /** Lines with too few fields are malformed, so `getTaskFromSave` reports one warning for each. */
  lemma EmptyLineIsMalformed()
    ensures ParseSave("") == Malformed
  {
    assert SaveFields("") == [""];
  }

  lemma TagOnlyLineIsMalformed()
    ensures ParseSave("T") == Malformed
  {
    assert Join(["T"]) == "T";
    SplitTrimJoin(["T"]);
  }

  lemma MissingDescriptionLineIsMalformed()
    ensures ParseSave("T | 1") == Malformed
  {
    assert "T" + DELIMITER + "1" == "T | 1";
    ShortLineFields("T", "1");
    assert ParseFields(["T", "1"]) == Malformed;
  }

  /** A variant tag followed by fewer fields than that variant reads is malformed. */
  lemma TooFewFieldsAreMalformed(args: seq<string>)
    requires || |args| < 2
             || (args[0] == "T" && |args| < 3)
             || (args[0] == "D" && |args| < 4)
             || (args[0] == "E" && |args| < 5)
    ensures ParseFields(args) == Malformed
  {
  }

  /** A line whose description field is empty is malformed too. */
  lemma EmptyDescriptionLineIsMalformed(tag: string, flag: string, rest: seq<string>)
    requires tag in SAVE_TAGS
    ensures ParseFields([tag, flag, ""] + rest) == Malformed
  {
  }

  /** An unknown tag yields null without any warning. */
  lemma UnknownTagLine()
    ensures ParseSave("X | 1") == UnknownType
  {
    assert "X" + DELIMITER + "1" == "X | 1";
    ShortLineFields("X", "1");
    assert ParseFields(["X", "1"]) == UnknownType;
  }

  /** The status icon and the save string agree on whether a task is done. */
  lemma IconAgreesWithSaveFlag(t: Tasks.Task)
    ensures t.StatusIcon() == "X" <==> t.SaveTaskString()[0] == '1'
  {
  }

  /** Keyword search is case-sensitive. */
  lemma KeywordIsCaseSensitive(t: Tasks.Task)
    requires t.description == "Buy Milk"
    ensures t.HasMatchingDescription("Milk")
    ensures !t.HasMatchingDescription("milk")
  {
    assert OccursAt(t.description, "Milk", 4);
    assert 'm' !in t.description;
    ContainsNeedsFirstChar(t.description, "milk");
  }

  /** The command word is compared without regard to case. */
  lemma DispatchIgnoresCase(tokens: map<string, string>, command: string)
    requires HasRequiredKeys(tokens) && ToLower(command) == ToLower(tokens["command"])
    ensures HasRequiredKeys(tokens["command" := command])
    ensures Dispatch(tokens["command" := command]) == Dispatch(tokens)
  {
  }

  /** `todo buy milk` makes a todo that is not done, whatever the case of the command word. */
  lemma TodoCommandExample(command: string)
    requires command in {"todo", "TODO", "ToDo"}
    ensures CommandOutcome(map["command" := command, "argument" := "buy milk"])
      == Success(TaskValue(Todo, "buy milk", false))
  {
    assert ToLower(command) == "todo";
  }

  /** `deadline submit report /by 2024-05-01` makes a deadline due then. */
  lemma DeadlineCommandExample()
    ensures CommandOutcome(map["command" := "deadline", "argument" := "submit report", "/by" := "2024-05-01"])
      == Success(TaskValue(Deadline("2024-05-01"), "submit report", false))
  {
    assert ToLower("deadline") == "deadline";
  }

  /** An unknown command word throws the unrecognised-type exception. */
  lemma UnknownCommandExample()
    ensures CommandOutcome(map["command" := "frobnicate", "argument" := "x"]) == Failure(UNRECOGNIZED_TASK_TYPE)
  {
    assert ToLower("frobnicate") == "frobnicate";
  }

  /** A todo command without an argument throws the todo's empty-description message. */
  lemma MissingArgumentExample()
    ensures CommandOutcome(map["command" := "todo"]) == Failure(EkudException(TODO_EMPTY_MESSAGE))
  {
    assert ToLower("todo") == "todo";
  }
}

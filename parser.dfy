/**
 * The command parser: one input line becomes exactly one command. Malformed
 * input becomes an `IncorrectCommand` carrying the message shown to the
 * user; the only way the parser fails to return a command is the
 * StringIndexOutOfBoundsException of a line that ends with its date marker.
 */
module Parser {
  import opened Wrappers
  import opened Text
  import opened Dates
  import opened Tasks

  const ListKeyword := "list"
  const ByeKeyword := "bye"
  const DoneKeyword := "done"
  const TodoKeyword := "todo"
  const DeadlineKeyword := "deadline"
  const EventKeyword := "event"
  const DeleteKeyword := "delete"
  const DeadlineMarker := "/by"
  const EventMarker := "/at"

  const UnknownMessage := "OOPS !!! Lo siento, pero no sé qué significa eso :-("
  const EmptyDescriptionMessage := "☹ OOPS !!! La descripción de una tarea no puede estar vacía."
  const UnableMessage := "☹ OOPS !!! Incapaz de completar"
  const NoDeadlineMessage := "☹ OOPS !!! Debe establecer una fecha límite para esta tarea."
  const NoEventTimeMessage := "☹ OOPS !!! Debe establecer la hora del evento para esta tarea."
  const DateFormatMessage := "☹ OOPS !!! Formato de fecha y hora incorrecto. Formatee como dd/MM/yyyy HHmm"

  /** The keywords that take an argument and are handed on to `Handle`. */
  const ArgumentKeywords := {DoneKeyword, DeadlineKeyword, TodoKeyword, EventKeyword, DeleteKeyword}
  const Keywords := {ListKeyword, ByeKeyword} + ArgumentKeywords

  datatype Command =
    | AddCommand(task: TaskRecord)
    | ListCommand
    | DoneCommand(index: Int32)
    | DeleteCommand(index: Int32)
    | ExitCommand
    | IncorrectCommand(message: string)

  /** What `parse` does with a line: return a command, or throw. */
  datatype Outcome = Returned(command: Command) | StringIndexOutOfBounds

  /** The kinds of command that `handle` builds. */
  datatype CommandType = Done | Deadline | Todo | Event | Delete

  /**
   * Splits a line at its first space into the keyword and the rest; a line
   * without a space is all keyword.
   */
  function SplitCommand(line: string): (r: (string, string))
    ensures ' ' !in line ==> r == (line, "")
    ensures ' ' in line ==> ' ' !in r.0 && line == r.0 + " " + r.1
  {
    match IndexOfChar(line, ' ')
    case None => (line, "")
    case Some(p) =>
      assert line == line[..p] + " " + line[p + 1..];
      (line[..p], line[p + 1..])
  }

  /** Splits the line, then dispatches on its keyword. */
  function Parse(line: string): (r: Outcome)
    ensures r.Returned? && r.command.AddCommand? ==>
      var t := r.command.task;
      !t.completed && !t.repeated && t.frequency == None &&
      (t.kind == TodoTask <==> t.date == NoDate) &&
      (t.kind != TodoTask ==> t.date.At?)
  {
    var (keyword, rest) := SplitCommand(line);
    Dispatch(keyword, rest)
  }

  /** The `switch` of `parse`: the rest goes to `Handle` for the five argument keywords. */
  function Dispatch(keyword: string, rest: string): (r: Outcome)
    ensures r.Returned? && r.command.AddCommand? ==>
      var t := r.command.task;
      !t.completed && !t.repeated && t.frequency == None &&
      (t.kind == TodoTask <==> t.date == NoDate) &&
      (t.kind != TodoTask ==> t.date.At?)
  {
    if keyword == ListKeyword then Returned(ListCommand)
    else if keyword == ByeKeyword then
      if rest == "" then Returned(ExitCommand) else Returned(IncorrectCommand(UnknownMessage))
    else match ArgumentType(keyword)
      case Some(kind) => Handle(rest, kind)
      case None => Returned(IncorrectCommand(UnknownMessage))
  }

  /** Which of `handle`'s command types an argument keyword selects. */
  function ArgumentType(keyword: string): (r: Option<CommandType>)
    ensures r.Some? <==> keyword in ArgumentKeywords
  {
    if keyword == DoneKeyword then Some(Done)
    else if keyword == DeadlineKeyword then Some(Deadline)
    else if keyword == TodoKeyword then Some(Todo)
    else if keyword == EventKeyword then Some(Event)
    else if keyword == DeleteKeyword then Some(Delete)
    else None
  }

  /**
   * Builds the command for one of the five argument keywords. An empty rest
   * is rejected before anything else; an index is the 1-based number minus
   * one, in `int` arithmetic and with no range check.
   */
  function Handle(rest: string, kind: CommandType): (r: Outcome)
    ensures rest == "" ==> r == Returned(IncorrectCommand(EmptyDescriptionMessage))
    ensures r.StringIndexOutOfBounds? ==> kind in {Deadline, Event}
    ensures r.Returned? && r.command.AddCommand? ==>
      var t := r.command.task;
      !t.completed && !t.repeated && t.frequency == None &&
      (t.kind == TodoTask <==> t.date == NoDate) &&
      (t.kind != TodoTask ==> t.date.At?)
  {
    if rest == "" then Returned(IncorrectCommand(EmptyDescriptionMessage))
    else match kind
      case Done =>
        (match ParseInt(rest)
         case None => Returned(IncorrectCommand(UnableMessage))
         case Some(n) => Returned(DoneCommand(Wrap32(n - 1))))
      case Delete =>
        (match ParseInt(rest)
         case None => Returned(IncorrectCommand(UnableMessage))
         case Some(n) => Returned(DeleteCommand(Wrap32(n - 1))))
      case Todo => Returned(AddCommand(Created(TodoTask, rest)))
      case Deadline => HandleDated(rest, DeadlineTask, DeadlineMarker, NoDeadlineMessage)
      case Event => HandleDated(rest, EventTask, EventMarker, NoEventTimeMessage)
  }

  /**
   * The deadline and event branches: the description is the rest up to the
   * first marker, the date text starts four characters after it (the marker
   * and the space that should follow it).
   */
  function HandleDated(rest: string, kind: Kind, marker: string, missing: string): (r: Outcome)
    requires |marker| == 3 && kind != TodoTask
    ensures !Contains(rest, marker) ==> r == Returned(IncorrectCommand(missing))
    ensures r.StringIndexOutOfBounds? ==> |rest| >= 3 && rest[|rest| - 3..] == marker
    ensures r.Returned? && r.command.AddCommand? ==>
      var t := r.command.task;
      t.kind == kind && !t.completed && !t.repeated && t.frequency == None && t.date.At? &&
      OccursAt(rest, marker, |t.description|) && rest[..|t.description|] == t.description &&
      !Contains(t.description, marker)
  {
    match IndexOf(rest, marker)
    case None => Returned(IncorrectCommand(missing))
    case Some(p) =>
      if p + 4 > |rest| then StringIndexOutOfBounds
      else
        PrefixWithoutPattern(rest, marker, p);
        match ParseDate(rest[p + 4..])
        case None => Returned(IncorrectCommand(DateFormatMessage))
        case Some(date) =>
          Returned(AddCommand(Created(kind, rest[..p]).(date := At(date))))
  }

  // -----------------------------------------------------------------------
  // What a line parses to

  /** A keyword without spaces, a space and a rest are split back apart. */
  lemma {:induction false} SplitKeyword(keyword: string, rest: string)
    requires ' ' !in keyword
    ensures SplitCommand(keyword + " " + rest) == (keyword, rest)
    ensures SplitCommand(keyword) == (keyword, "")
    ensures Parse(keyword + " " + rest) == Dispatch(keyword, rest)
    ensures Parse(keyword) == Dispatch(keyword, "")
  {
    var line := keyword + " " + rest;
    IndexOfCharAfter(keyword, ' ', rest);
    assert line[..|keyword|] == keyword && line[|keyword| + 1..] == rest;
  }

  /** `list` is a list command whatever follows it. */
  lemma ParseList(rest: string)
    ensures Parse(ListKeyword) == Returned(ListCommand)
    ensures Parse(ListKeyword + " " + rest) == Returned(ListCommand)
  {
    SplitKeyword(ListKeyword, rest);
  }

  /** `bye` exits exactly when nothing but an optional space follows it. */
  lemma ParseBye(rest: string)
    ensures Parse(ByeKeyword) == Returned(ExitCommand)
    ensures Parse(ByeKeyword + " " + rest) ==
      if rest == "" then Returned(ExitCommand) else Returned(IncorrectCommand(UnknownMessage))
  {
  }

  /** A keyword outside the known set is an unrecognised command, with or without a rest. */
  lemma ParseUnknown(keyword: string, rest: string)
    requires ' ' !in keyword && keyword !in Keywords
    ensures Parse(keyword) == Returned(IncorrectCommand(UnknownMessage))
    ensures Parse(keyword + " " + rest) == Returned(IncorrectCommand(UnknownMessage))
  {
    SplitKeyword(keyword, rest);
  }

  /** No argument keyword is `list` or `bye`: their first letters differ. */
  lemma ArgumentKeywordsDistinct(keyword: string)
    requires keyword in ArgumentKeywords
    ensures keyword != ListKeyword && keyword != ByeKeyword
  {
    assert keyword[0] in {'d', 't', 'e'};
  }

  /** An argument keyword with nothing after it is the empty-description error. */
  lemma ParseEmptyRest(keyword: string)
    requires keyword in ArgumentKeywords
    ensures Parse(keyword) == Returned(IncorrectCommand(EmptyDescriptionMessage))
    ensures Parse(keyword + " ") == Returned(IncorrectCommand(EmptyDescriptionMessage))
  {
    assert Parse(keyword) == Dispatch(keyword, "") && Parse(keyword + " ") == Dispatch(keyword, "") by {
      SplitKeyword(keyword, "");
      assert keyword + " " == keyword + " " + "";
    }
    assert Dispatch(keyword, "") == Handle("", ArgumentType(keyword).value) by {
      ArgumentKeywordsDistinct(keyword);
    }
  }

  /** `todo` keeps its whole rest, spaces included, as the description. */
  lemma ParseTodo(text: string)
    requires text != ""
    ensures Parse(TodoKeyword + " " + text) == Returned(AddCommand(Created(TodoTask, text)))
  {
    SplitKeyword(TodoKeyword, text);
  }

  /** `done` and `delete` with a rest that is not an `int` cannot complete. */
  lemma ParseIndexNotANumber(keyword: string, text: string)
    requires keyword in {DoneKeyword, DeleteKeyword}
    requires text != "" && ParseInt(text) == None
    ensures Parse(keyword + " " + text) == Returned(IncorrectCommand(UnableMessage))
  {
    SplitKeyword(keyword, text);
  }

  /**
   * `handle` turns every text `parseInt` accepts (bare digits, a sign,
   * leading zeros) into that number minus one, for `done` and `delete`.
   */
  lemma HandleIndex(text: string, n: Int32)
    requires ParseInt(text) == Some(n)
    ensures Handle(text, Done) == Returned(DoneCommand(Wrap32(n - 1)))
    ensures Handle(text, Delete) == Returned(DeleteCommand(Wrap32(n - 1)))
  {
    assert text != [];
  }

  /**
   * No range check: any `int` typed after `done`, in any form `parseInt`
   * accepts, becomes that number minus one in `int` arithmetic, so `done 0`
   * and `done -0` are index -1, `done +3` and `done 03` index 2, and the
   * smallest `int` wraps round to the largest.
   */
  lemma ParseDoneIndex(text: string, n: Int32)
    requires ParseInt(text) == Some(n)
    ensures Parse(DoneKeyword + " " + text) == Returned(DoneCommand(Wrap32(n - 1)))
  {
    SplitKeyword(DoneKeyword, text);
    assert Dispatch(DoneKeyword, text) == Handle(text, Done) by {
      assert ArgumentType(DoneKeyword) == Some(Done);
    }
    HandleIndex(text, n);
  }

  /** `delete` reads its index exactly as `done` does. */
  lemma ParseDeleteIndex(text: string, n: Int32)
    requires ParseInt(text) == Some(n)
    ensures Parse(DeleteKeyword + " " + text) == Returned(DeleteCommand(Wrap32(n - 1)))
  {
    SplitKeyword(DeleteKeyword, text);
    assert Dispatch(DeleteKeyword, text) == Handle(text, Delete) by {
      assert ArgumentType(DeleteKeyword) == Some(Delete);
    }
    HandleIndex(text, n);
  }

  /** In particular, the decimal text of any `int` after `done` or `delete`. */
  lemma ParseDecimalIndex(n: Int32)
    ensures Parse(DoneKeyword + " " + IntToString(n)) == Returned(DoneCommand(Wrap32(n - 1)))
    ensures Parse(DeleteKeyword + " " + IntToString(n)) == Returned(DeleteCommand(Wrap32(n - 1)))
  {
    ParseIntToString(n);
    ParseDoneIndex(IntToString(n), n);
    ParseDeleteIndex(IntToString(n), n);
  }

  /**
   * The number the list shows next to the task at position `i` (`i + 1`),
   * typed after `done` or `delete`, addresses position `i`.
   */
  lemma ParseListedNumber(i: nat)
    requires i < IntMax
    ensures Parse(DoneKeyword + " " + IntToString(i + 1)) == Returned(DoneCommand(i))
    ensures Parse(DeleteKeyword + " " + IntToString(i + 1)) == Returned(DeleteCommand(i))
  {
    ParseDecimalIndex(i + 1);
  }

  function KeywordOf(kind: Kind): string {
    match kind
    case TodoTask => TodoKeyword
    case DeadlineTask => DeadlineKeyword
    case EventTask => EventKeyword
  }

  function MarkerOf(kind: Kind): string {
    if kind == EventTask then EventMarker else DeadlineMarker
  }

  function MissingDateMessage(kind: Kind): string {
    if kind == EventTask then NoEventTimeMessage else NoDeadlineMessage
  }

  lemma DatedLine(kind: Kind, rest: string)
    requires kind != TodoTask && rest != ""
    ensures Parse(KeywordOf(kind) + " " + rest) == HandleDated(rest, kind, MarkerOf(kind), MissingDateMessage(kind))
  {
    var keyword := KeywordOf(kind);
    var command := if kind == DeadlineTask then Deadline else Event;
    assert Parse(keyword + " " + rest) == Dispatch(keyword, rest) by {
      SplitKeyword(keyword, rest);
    }
    assert Dispatch(keyword, rest) == Handle(rest, command) by {
      assert ArgumentType(keyword) == Some(command) by {
        assert keyword != DoneKeyword;
      }
      assert keyword != ListKeyword && keyword != ByeKeyword;
    }
    assert Handle(rest, command) == HandleDated(rest, kind, MarkerOf(kind), MissingDateMessage(kind)) by {
      assert rest != "";
    }
  }

  /**
   * After a description without the marker, the marker and one more
   * character, the rest of a deadline or event is the date text. That
   * character is dropped whatever it is, so with no space after the marker
   * the date text loses its first digit.
   */
  lemma HandleDatedAfterText(kind: Kind, description: string, c: char, text: string)
    requires kind != TodoTask
    requires !Contains(description, MarkerOf(kind))
    ensures HandleDated(description + MarkerOf(kind) + [c] + text, kind, MarkerOf(kind), MissingDateMessage(kind))
      == match ParseDate(text)
         case None => Returned(IncorrectCommand(DateFormatMessage))
         case Some(date) => Returned(AddCommand(Created(kind, description).(date := At(date))))
  {
    var marker := MarkerOf(kind);
    var rest := description + marker + [c] + text;
    MarkerAfterText(description, marker, [c] + text);
    assert rest == description + marker + ([c] + text);
    assert rest[..|description|] == description;
    assert rest[|description| + 4..] == text;
  }

  /**
   * A deadline or event line built from a description without the marker
   * and a formatted date parses back to that description (trailing space
   * and all) and that date.
   */
  lemma ParseDated(kind: Kind, description: string, date: DateTime)
    requires kind != TodoTask
    requires !Contains(description, MarkerOf(kind))
    requires ValidDateTime(date) && date.year <= 9999
    ensures Parse(KeywordOf(kind) + " " + description + MarkerOf(kind) + " " + FormatDate(date))
      == Returned(AddCommand(Created(kind, description).(date := At(date))))
  {
    var text := FormatDate(date);
    var rest := description + MarkerOf(kind) + " " + text;
    assert KeywordOf(kind) + " " + description + MarkerOf(kind) + " " + text == KeywordOf(kind) + " " + rest;
    DatedLine(kind, rest);
    HandleDatedAfterText(kind, description, ' ', text);
    ParseFormatDate(date);
  }

  /** A deadline or event rest without its marker is the missing-date error. */
  lemma ParseDatedNoMarker(kind: Kind, rest: string)
    requires kind != TodoTask && rest != ""
    requires !Contains(rest, MarkerOf(kind))
    ensures Parse(KeywordOf(kind) + " " + rest) == Returned(IncorrectCommand(MissingDateMessage(kind)))
  {
    DatedLine(kind, rest);
  }

  /** Date text that does not fit the pattern builds no task. */
  lemma ParseDatedBadDate(kind: Kind, description: string, text: string)
    requires kind != TodoTask
    requires !Contains(description, MarkerOf(kind))
    requires ParseDate(text) == None
    ensures Parse(KeywordOf(kind) + " " + description + MarkerOf(kind) + " " + text)
      == Returned(IncorrectCommand(DateFormatMessage))
  {
    var rest := description + MarkerOf(kind) + " " + text;
    assert KeywordOf(kind) + " " + description + MarkerOf(kind) + " " + text == KeywordOf(kind) + " " + rest;
    DatedLine(kind, rest);
    HandleDatedAfterText(kind, description, ' ', text);
  }

  /** A line whose rest ends with the marker makes the parser throw. */
  lemma ParseMarkerAtEnd(kind: Kind, description: string)
    requires kind != TodoTask
    requires !Contains(description, MarkerOf(kind))
    ensures Parse(KeywordOf(kind) + " " + description + MarkerOf(kind)) == StringIndexOutOfBounds
  {
    var marker := MarkerOf(kind);
    var rest := description + marker;
    assert KeywordOf(kind) + " " + description + marker == KeywordOf(kind) + " " + rest;
    DatedLine(kind, rest);
    MarkerAfterText(description, marker, "");
    assert rest == description + marker + "";
  }

  /** Conversely, the parser throws only on a line that ends with a marker. */
  lemma ThrowsOnlyAtMarkerEnd(line: string)
    requires Parse(line) == StringIndexOutOfBounds
    ensures var (keyword, rest) := SplitCommand(line);
      || (keyword == DeadlineKeyword && |rest| >= 3 && rest[|rest| - 3..] == DeadlineMarker)
      || (keyword == EventKeyword && |rest| >= 3 && rest[|rest| - 3..] == EventMarker)
    ensures |line| >= 3 && line[|line| - 3..] in {DeadlineMarker, EventMarker}
  {
    var (keyword, rest) := SplitCommand(line);
    assert Dispatch(keyword, rest) == StringIndexOutOfBounds;
    var command := ArgumentType(keyword).value;
    assert Handle(rest, command) == StringIndexOutOfBounds by {
      assert keyword != ListKeyword && keyword != ByeKeyword;
    }
    assert rest != "" && command in {Deadline, Event};
    var marker := if command == Event then EventMarker else DeadlineMarker;
    assert |rest| >= 3 && rest[|rest| - 3..] == marker;
    assert ' ' in line && line == keyword + " " + rest;
    assert line[|line| - 3..] == rest[|rest| - 3..];
  }

  lemma NoSlashNoMarker(s: string, marker: string)
    requires |marker| > 0 && marker[0] == '/' && '/' !in s
    ensures !Contains(s, marker)
  {
  }

  /**
   * Nothing between the keyword and the marker still makes a deadline or an
   * event, with an empty description.
   */
  lemma ParseEmptyDescription(kind: Kind, date: DateTime)
    requires kind != TodoTask
    requires ValidDateTime(date) && date.year <= 9999
    ensures Parse(KeywordOf(kind) + " " + MarkerOf(kind) + " " + FormatDate(date))
      == Returned(AddCommand(Created(kind, "").(date := At(date))))
  {
    NoSlashNoMarker("", MarkerOf(kind));
    ParseDated(kind, "", date);
    assert KeywordOf(kind) + " " + "" + MarkerOf(kind) + " " + FormatDate(date)
      == KeywordOf(kind) + " " + MarkerOf(kind) + " " + FormatDate(date) by {
      assert KeywordOf(kind) + " " + "" == KeywordOf(kind) + " ";
    }
  }
}

/**
 * The earlier console driver: a loop that reads a keyword, acts on the task
 * list it owns and prints a confirmation or an error. Reading the console
 * is left to the caller, which hands each step the keyword together with
 * what the driver would read next (an `int` for `done`, the rest of the
 * line for the three adding keywords).
 *
 * The pure functions below say what one step does to the list's contents;
 * the `TaskList` class performs the steps in place on its `Task` objects
 * and is proved to agree with them.
 */
module Driver {
  import opened Wrappers
  import opened Text
  import opened Tasks

  const ListKeyword := "list"
  const ByeKeyword := "bye"
  const DoneKeyword := "done"
  const TodoKeyword := "todo"
  const DeadlineKeyword := "deadline"
  const EventKeyword := "event"
  const DeadlineMarker := "/by"
  const EventMarker := "/at"

  const EmptyListMessage := "☹ OOPS !!! La lista está vacía. ¡Agregue una nueva tarea!"
  const NoSuchTaskMessage := "☹ OOPS !!! ¡Esta tarea aún no existe!"
  const EmptyDescriptionMessage := "☹ OOPS !!! La descripción de una tarea no puede estar vacía."
  const NoDeadlineMessage := "☹ OOPS !!! Debe establecer una fecha límite para esta tarea."
  const NoEventTimeMessage := "☹ OOPS !!! Debe establecer la hora del evento para esta tarea."
  const UnknownMessage := "OOPS !!! Lo siento, pero no sé qué significa eso :-("

  /**
   * One turn of the loop: the keyword token, the `int` that `nextInt` would
   * read after it (None when the next token is missing or not an `int`),
   * and the text that `nextLine` would return after it.
   */
  datatype Request = Request(keyword: string, number: Option<Int32>, remainder: string)

  /** One printed line of the list: its 1-based number and the task. */
  datatype Entry = Entry(number: int, task: TaskRecord)

  /** What a step reports; `Uncaught` is an exception that escapes `main`. */
  datatype Report =
    | Listing(entries: seq<Entry>)
    | Farewell
    | MarkedDone(task: TaskRecord)
    | Added(task: TaskRecord, size: nat)
    | Failed(message: string)
    | Uncaught

  /** The list's contents after a step, and the step's report. */
  datatype Step = Step(tasks: seq<TaskRecord>, report: Report)

  /** How a run of the loop ended. */
  datatype Ending = OutOfInput | Exited | Threw

  datatype RunResult = RunResult(tasks: seq<TaskRecord>, consumed: nat, ending: Ending)

  // -----------------------------------------------------------------------
  // One step, on the list's contents

  /** Only the completion flag may change, and only from false to true. */
  predicate Kept(before: TaskRecord, after: TaskRecord) {
    after == before || after == before.(completed := true)
  }

  /** `after` keeps every task of `before`, in place, and may add more at the end. */
  predicate Extends(before: seq<TaskRecord>, after: seq<TaskRecord>) {
    |before| <= |after| && forall i :: 0 <= i < |before| ==> Kept(before[i], after[i])
  }

  function Numbered(ts: seq<TaskRecord>): (entries: seq<Entry>)
    ensures |entries| == |ts|
    ensures forall i :: 0 <= i < |ts| ==> entries[i] == Entry(i + 1, ts[i])
  {
    seq(|ts|, i requires 0 <= i < |ts| => Entry(i + 1, ts[i]))
  }

  /** `list`: the empty-list error on an empty list, else every task numbered from 1 in order. */
  function ListSpec(ts: seq<TaskRecord>): (r: Report)
    ensures ts == [] <==> r == Failed(EmptyListMessage)
    ensures ts != [] ==> r.Listing? && |r.entries| == |ts|
    ensures ts != [] ==> forall i :: 0 <= i < |ts| ==> r.entries[i] == Entry(i + 1, ts[i])
  {
    if ts == [] then Failed(EmptyListMessage) else Listing(Numbered(ts))
  }

  /**
   * `done n`: position n - 1 (in `int` arithmetic) is completed when it is
   * below the size; only the upper bound is checked, so a negative position
   * reaches `get` and throws.
   */
  function DoneSpec(ts: seq<TaskRecord>, number: Option<Int32>): (r: Step)
    ensures |r.tasks| == |ts|
    ensures forall j :: 0 <= j < |ts| ==> Kept(ts[j], r.tasks[j])
    ensures r.report.MarkedDone? <==> r.tasks != ts || (exists p :: 0 <= p < |ts| && ts[p].completed && r.report == MarkedDone(ts[p]))
    ensures number.Some? && 0 <= Wrap32(number.value - 1) < |ts| ==>
      var p := Wrap32(number.value - 1);
      r.tasks[p].completed && r.report == MarkedDone(r.tasks[p]) &&
      forall j :: 0 <= j < |ts| && j != p ==> r.tasks[j] == ts[j]
    ensures number.Some? && Wrap32(number.value - 1) >= |ts| ==> r == Step(ts, Failed(NoSuchTaskMessage))
    ensures (number.None? || Wrap32(number.value - 1) < 0) ==> r == Step(ts, Uncaught)
  {
    match number
    case None => Step(ts, Uncaught)
    case Some(n) =>
      var p := Wrap32(n - 1);
      if p < |ts| then
        if p < 0 then Step(ts, Uncaught)
        else
          var done := ts[p].(completed := true);
          Step(ts[p := done], MarkedDone(done))
      else Step(ts, Failed(NoSuchTaskMessage))
  }

  /** `todo`: an empty remainder adds nothing; otherwise one to-do is appended at the end. */
  function TodoSpec(ts: seq<TaskRecord>, remainder: string): (r: Step)
    ensures remainder == "" ==> r == Step(ts, Failed(EmptyDescriptionMessage))
    ensures remainder != "" ==>
      |r.tasks| == |ts| + 1 && r.tasks[..|ts|] == ts &&
      r.tasks[|ts|] == Created(TodoTask, remainder) && r.report == Added(r.tasks[|ts|], |ts| + 1)
  {
    if remainder == "" then Step(ts, Failed(EmptyDescriptionMessage))
    else
      var t := Created(TodoTask, remainder);
      Step(ts + [t], Added(t, |ts| + 1))
  }

  function MarkerOf(kind: Kind): string {
    if kind == EventTask then EventMarker else DeadlineMarker
  }

  function MissingDateMessage(kind: Kind): string {
    if kind == EventTask then NoEventTimeMessage else NoDeadlineMessage
  }

  /**
   * The driver's cut of a remainder at the first marker: the text before it
   * and the text from three characters after it, the marker's length.
   */
  function CutAtMarker(remainder: string, marker: string): (r: Option<(string, string)>)
    requires |marker| == 3
    ensures r.None? <==> !Contains(remainder, marker)
    ensures r.Some? ==> remainder == r.value.0 + marker + r.value.1 && !Contains(r.value.0, marker)
  {
    match IndexOf(remainder, marker)
    case None => None
    case Some(p) =>
      PrefixWithoutPattern(remainder, marker, p);
      assert remainder == remainder[..p] + marker + remainder[p + 3..];
      Some((remainder[..p], remainder[p + 3..]))
  }

  /**
   * `deadline` and `event`: the description is the remainder up to the
   * first marker and the date text is everything three characters after
   * it; an empty remainder, a missing marker or empty date text adds
   * nothing.
   */
  function DatedSpec(ts: seq<TaskRecord>, kind: Kind, remainder: string): (r: Step)
    requires kind != TodoTask
    ensures remainder == "" ==> r == Step(ts, Failed(EmptyDescriptionMessage))
    ensures remainder != "" && !Contains(remainder, MarkerOf(kind)) ==> r == Step(ts, Failed(MissingDateMessage(kind)))
    ensures r.tasks == ts || (|r.tasks| == |ts| + 1 && r.tasks[..|ts|] == ts)
    ensures r.tasks != ts ==>
      var t := r.tasks[|ts|];
      t.kind == kind && !t.completed && t.date.AsText? && t.date.text != "" &&
      remainder == t.description + MarkerOf(kind) + t.date.text &&
      !Contains(t.description, MarkerOf(kind)) &&
      r.report == Added(t, |ts| + 1)
    ensures r.tasks == ts ==> r.report.Failed?
  {
    if remainder == "" then Step(ts, Failed(EmptyDescriptionMessage))
    else match CutAtMarker(remainder, MarkerOf(kind))
      case None => Step(ts, Failed(MissingDateMessage(kind)))
      case Some((description, text)) =>
        if text == "" then Step(ts, Failed(MissingDateMessage(kind)))
        else
          var t := Created(kind, description).(date := AsText(text));
          assert (ts + [t])[|ts|] == t;
          Step(ts + [t], Added(t, |ts| + 1))
  }

  /** One turn of the loop's `switch`, on the list's contents. */
  function Apply(ts: seq<TaskRecord>, q: Request): (r: Step)
    ensures q.keyword == ByeKeyword ==> r == Step([], Farewell)
    ensures q.keyword !in {ListKeyword, ByeKeyword, DoneKeyword, TodoKeyword, DeadlineKeyword, EventKeyword} ==>
      r == Step(ts, Failed(UnknownMessage))
    ensures q.keyword == ListKeyword ==> r.tasks == ts
  {
    if q.keyword == ListKeyword then Step(ts, ListSpec(ts))
    else if q.keyword == ByeKeyword then Step([], Farewell)
    else if q.keyword == DoneKeyword then DoneSpec(ts, q.number)
    else if q.keyword == TodoKeyword then TodoSpec(ts, q.remainder)
    else if q.keyword == DeadlineKeyword then DatedSpec(ts, DeadlineTask, q.remainder)
    else if q.keyword == EventKeyword then DatedSpec(ts, EventTask, q.remainder)
    else Step(ts, Failed(UnknownMessage))
  }

  /**
   * The loop ends after a step that throws, or when the input variable
   * holds "bye" afterwards: the keyword itself, except for the three adding
   * keywords, which overwrite it with the rest of the line.
   */
  function Stops(ts: seq<TaskRecord>, q: Request): (stop: bool)
    ensures stop <==>
      || Apply(ts, q).report.Uncaught?
      || q.keyword == ByeKeyword
      || (q.keyword in {TodoKeyword, DeadlineKeyword, EventKeyword} && q.remainder == ByeKeyword)
    ensures Apply(ts, q).report.Uncaught? ==> q.keyword == DoneKeyword
  {
    var input := if q.keyword in {TodoKeyword, DeadlineKeyword, EventKeyword} then q.remainder else q.keyword;
    Apply(ts, q).report.Uncaught? || input == ByeKeyword
  }

  /** The loop over a sequence of requests, stopping early as `Stops` says. */
  function RunSpec(ts: seq<TaskRecord>, qs: seq<Request>): (r: RunResult)
    ensures r.consumed <= |qs|
    ensures r.ending == OutOfInput ==> r.consumed == |qs|
    ensures r.ending != OutOfInput ==> 0 < r.consumed
    decreases |qs|
  {
    if qs == [] then RunResult(ts, 0, OutOfInput)
    else
      var s := Apply(ts, qs[0]);
      if Stops(ts, qs[0]) then
        RunResult(s.tasks, 1, if s.report.Uncaught? then Threw else Exited)
      else
        var r := RunSpec(s.tasks, qs[1..]);
        RunResult(r.tasks, r.consumed + 1, r.ending)
  }

  // -----------------------------------------------------------------------
  // Properties of steps and runs

  /** Marking the same number done twice leaves the list as marking it once. */
  lemma DoneIdempotent(ts: seq<TaskRecord>, number: Option<Int32>)
    ensures DoneSpec(DoneSpec(ts, number).tasks, number).tasks == DoneSpec(ts, number).tasks
  {
  }

  /** Every step but `bye` keeps the tasks it finds, in place, and can only add at the end. */
  lemma StepExtends(ts: seq<TaskRecord>, q: Request)
    requires q.keyword != ByeKeyword
    ensures Extends(ts, Apply(ts, q).tasks)
  {
  }

  lemma ExtendsTransitive(a: seq<TaskRecord>, b: seq<TaskRecord>, c: seq<TaskRecord>)
    requires Extends(a, b) && Extends(b, c)
    ensures Extends(a, c)
  {
  }

  /**
   * Over a whole run, a task once listed keeps its place, its description
   * and its date, and once completed stays completed; the list is only
   * emptied by the `bye` that ends the run.
   */
  lemma {:induction false} RunExtends(ts: seq<TaskRecord>, qs: seq<Request>)
    ensures var r := RunSpec(ts, qs);
      Extends(ts, r.tasks) ||
      (r.tasks == [] && r.ending == Exited && qs[r.consumed - 1].keyword == ByeKeyword)
    decreases |qs|
  {
    if qs != [] {
      var s := Apply(ts, qs[0]);
      if qs[0].keyword == ByeKeyword {
        assert Stops(ts, qs[0]);
      } else {
        StepExtends(ts, qs[0]);
        if !Stops(ts, qs[0]) {
          var r := RunSpec(s.tasks, qs[1..]);
          RunExtends(s.tasks, qs[1..]);
          if Extends(s.tasks, r.tasks) {
            ExtendsTransitive(ts, s.tasks, r.tasks);
          } else {
            assert qs[1..][r.consumed - 1] == qs[r.consumed];
          }
        }
      }
    }
  }

  /** A `bye` ends the run at once, with an empty list. */
  lemma ByeEndsRun(ts: seq<TaskRecord>, q: Request, qs: seq<Request>)
    requires q.keyword == ByeKeyword
    ensures RunSpec(ts, [q] + qs) == RunResult([], 1, Exited)
  {
  }

  /**
   * The loop runs no further than the first `bye`: no request before the
   * last one it consumed is a `bye`, a `bye` anywhere in the input ends the
   * run before the input runs out, and only `done` can throw.
   */
  lemma {:induction false} RunStopsAtBye(ts: seq<TaskRecord>, qs: seq<Request>)
    ensures var r := RunSpec(ts, qs);
      forall i :: 0 <= i < r.consumed - 1 ==> qs[i].keyword != ByeKeyword
    ensures (exists i :: 0 <= i < |qs| && qs[i].keyword == ByeKeyword) ==> RunSpec(ts, qs).ending != OutOfInput
    ensures var r := RunSpec(ts, qs);
      r.ending == Threw ==> qs[r.consumed - 1].keyword == DoneKeyword
    decreases |qs|
  {
    if qs != [] && !Stops(ts, qs[0]) {
      var s := Apply(ts, qs[0]);
      var r := RunSpec(s.tasks, qs[1..]);
      RunStopsAtBye(s.tasks, qs[1..]);
      forall i | 0 <= i < r.consumed ensures qs[i].keyword != ByeKeyword {
        if i > 0 {
          assert qs[i] == qs[1..][i - 1];
        }
      }
      if exists i :: 0 <= i < |qs| && qs[i].keyword == ByeKeyword {
        var i :| 0 <= i < |qs| && qs[i].keyword == ByeKeyword;
        assert i > 0 && qs[1..][i - 1] == qs[i];
      }
      if r.ending == Threw {
        assert qs[1..][r.consumed - 1] == qs[r.consumed];
      }
    }
  }

  /**
   * A deadline or event whose description lacks the marker and whose date
   * text is not empty is appended, with the description and the date text
   * split at the marker.
   */
  lemma DatedAppends(ts: seq<TaskRecord>, kind: Kind, description: string, text: string)
    requires kind != TodoTask && text != ""
    requires !Contains(description, MarkerOf(kind))
    ensures var t := Created(kind, description).(date := AsText(text));
      DatedSpec(ts, kind, description + MarkerOf(kind) + text) == Step(ts + [t], Added(t, |ts| + 1))
  {
    var remainder := description + MarkerOf(kind) + text;
    MarkerAfterText(description, MarkerOf(kind), text);
    assert remainder[..|description|] == description;
    assert remainder[|description| + 3..] == text;
    assert CutAtMarker(remainder, MarkerOf(kind)) == Some((description, text));
  }

  /** Nothing after the marker is the missing-date error, and nothing is added. */
  lemma DatedEmptyText(ts: seq<TaskRecord>, kind: Kind, description: string)
    requires kind != TodoTask
    requires !Contains(description, MarkerOf(kind))
    ensures DatedSpec(ts, kind, description + MarkerOf(kind)) == Step(ts, Failed(MissingDateMessage(kind)))
  {
    var remainder := description + MarkerOf(kind);
    MarkerAfterText(description, MarkerOf(kind), "");
    assert remainder == description + MarkerOf(kind) + "";
    assert remainder[..|description|] == description;
    assert remainder[|description| + 3..] == "";
    assert CutAtMarker(remainder, MarkerOf(kind)) == Some((description, ""));
  }

  // -----------------------------------------------------------------------
  // The list of task objects

  /** The field values of each task object, in list order. */
  function Snapshot(ts: seq<Task>): (r: seq<TaskRecord>)
    reads ts
    ensures |r| == |ts| && forall i :: 0 <= i < |ts| ==> r[i] == ts[i].Value()
  {
    seq(|ts|, i requires 0 <= i < |ts| reads ts => ts[i].Value())
  }

  class TaskList {
    var tasks: seq<Task>

    /** No task object appears twice in the list. */
    ghost predicate Valid()
      reads this
    {
      forall i, j :: 0 <= i < j < |tasks| ==> tasks[i] != tasks[j]
    }

    /** The task objects the list holds. */
    ghost function Repr(): set<Task>
      reads this
    {
      set t | t in tasks
    }

    ghost function Contents(): seq<TaskRecord>
      reads this, tasks
    {
      Snapshot(tasks)
    }

    constructor ()
      ensures Valid() && Contents() == []
    {
      tasks := [];
    }

    /** `list`: reads the list and numbers its entries from 1. */
    method ListTasks() returns (report: Report)
      ensures report == ListSpec(Contents())
    {
      if tasks == [] {
        return Failed(EmptyListMessage);
      }
      var entries: seq<Entry> := [];
      for i := 0 to |tasks|
        invariant |entries| == i
        invariant forall k :: 0 <= k < i ==> entries[k] == Entry(k + 1, tasks[k].Value())
      {
        entries := entries + [Entry(i + 1, tasks[i].Value())];
      }
      report := Listing(entries);
    }

    /** `bye`: the list is cleared. */
    method Clear()
      modifies this
      ensures Valid() && tasks == [] && Contents() == []
    {
      tasks := [];
    }

    /** `done`: completes the task at position `number - 1` when that position is below the size. */
    method MarkDone(number: Option<Int32>) returns (report: Report)
      requires Valid()
      modifies tasks
      ensures Valid() && tasks == old(tasks)
      ensures Contents() == DoneSpec(old(Contents()), number).tasks
      ensures report == DoneSpec(old(Contents()), number).report
    {
      ghost var before := Contents();
      if number.None? {
        return Uncaught;
      }
      var p := Wrap32(number.value - 1);
      if p < |tasks| {
        if p < 0 {
          return Uncaught;
        }
        tasks[p].CompleteTask();
        forall j | 0 <= j < |tasks| && j != p ensures tasks[j].Value() == before[j] {
          assert tasks[j] != tasks[p];
        }
        assert Contents() == before[p := before[p].(completed := true)];
        report := MarkedDone(tasks[p].Value());
      } else {
        report := Failed(NoSuchTaskMessage);
      }
    }

    /** Appends a freshly built task object. */
    method Append(t: Task)
      requires Valid() && t !in tasks
      modifies this
      ensures Valid() && tasks == old(tasks) + [t]
      ensures Contents() == old(Contents()) + [t.Value()]
    {
      tasks := tasks + [t];
      assert Snapshot(tasks)[..|tasks| - 1] == Snapshot(old(tasks));
    }

    /** `todo`: appends a to-do holding the whole remainder. */
    method AddTodo(remainder: string) returns (report: Report)
      requires Valid()
      modifies this
      ensures Valid() && fresh(Repr() - old(Repr()))
      ensures |old(tasks)| <= |tasks| && tasks[..|old(tasks)|] == old(tasks)
      ensures Contents() == TodoSpec(old(Contents()), remainder).tasks
      ensures report == TodoSpec(old(Contents()), remainder).report
    {
      if remainder == "" {
        return Failed(EmptyDescriptionMessage);
      }
      var t := new Task(TodoTask, remainder);
      Append(t);
      report := Added(t.Value(), |tasks|);
    }

    /** `deadline` and `event`: splits the remainder at the first marker and appends the task. */
    method AddDated(kind: Kind, remainder: string) returns (report: Report)
      requires Valid() && kind != TodoTask
      modifies this
      ensures Valid() && fresh(Repr() - old(Repr()))
      ensures |old(tasks)| <= |tasks| && tasks[..|old(tasks)|] == old(tasks)
      ensures Contents() == DatedSpec(old(Contents()), kind, remainder).tasks
      ensures report == DatedSpec(old(Contents()), kind, remainder).report
    {
      var marker := MarkerOf(kind);
      if remainder == "" {
        return Failed(EmptyDescriptionMessage);
      }
      var cut := CutAtMarker(remainder, marker);
      if cut.None? {
        return Failed(MissingDateMessage(kind));
      }
      var (description, text) := cut.value;
      if text == "" {
        return Failed(MissingDateMessage(kind));
      }
      var t := new Task(kind, description);
      t.SetTime(AsText(text));
      Append(t);
      report := Added(t.Value(), |tasks|);
    }

    /** One turn of the loop's `switch`; `stops` says whether the loop ends after it. */
    method Execute(q: Request) returns (report: Report, stops: bool)
      requires Valid()
      modifies this, tasks
      ensures Valid() && fresh(Repr() - old(Repr()))
      ensures q.keyword != ByeKeyword ==> |old(tasks)| <= |tasks| && tasks[..|old(tasks)|] == old(tasks)
      ensures Contents() == Apply(old(Contents()), q).tasks
      ensures report == Apply(old(Contents()), q).report
      ensures stops == Stops(old(Contents()), q)
    {
      var input := q.keyword;
      if q.keyword == ListKeyword {
        report := ListTasks();
      } else if q.keyword == ByeKeyword {
        Clear();
        report := Farewell;
      } else if q.keyword == DoneKeyword {
        report := MarkDone(q.number);
      } else if q.keyword == TodoKeyword {
        input := q.remainder;
        report := AddTodo(q.remainder);
      } else if q.keyword == DeadlineKeyword {
        input := q.remainder;
        report := AddDated(DeadlineTask, q.remainder);
      } else if q.keyword == EventKeyword {
        input := q.remainder;
        report := AddDated(EventTask, q.remainder);
      } else {
        report := Failed(UnknownMessage);
      }
      stops := report.Uncaught? || input == ByeKeyword;
    }

    /** The loop of `main` over the requests the console would supply. */
    method Run(requests: seq<Request>) returns (consumed: nat, ending: Ending)
      requires Valid()
      modifies this, tasks
      ensures Valid()
      ensures RunSpec(old(Contents()), requests) == RunResult(Contents(), consumed, ending)
    {
      ghost var start := Contents();
      consumed, ending := 0, OutOfInput;
      while consumed < |requests|
        invariant consumed <= |requests|
        invariant Valid() && fresh(Repr() - old(Repr()))
        invariant var r := RunSpec(Contents(), requests[consumed..]);
          RunSpec(start, requests) == RunResult(r.tasks, r.consumed + consumed, r.ending)
      {
        var report, stops := Execute(requests[consumed]);
        assert requests[consumed..][1..] == requests[consumed + 1..];
        consumed := consumed + 1;
        if stops {
          ending := if report.Uncaught? then Threw else Exited;
          break;
        }
      }
    }
  }
}

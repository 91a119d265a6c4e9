/**
 * The task record: a description, a completion flag that only ever turns
 * on, an optional schedule and recurrence metadata. The three Java
 * subclasses (Todo, Deadline, Event) become the `kind` tag.
 */
module Tasks {
  import opened Wrappers
  import opened Dates

  datatype Kind = TodoTask | DeadlineTask | EventTask

  /**
   * A recurrence frequency. Its values belong to the parser's
   * FrequencyOfRecurrence enumeration, which is not part of this model, so
   * they are kept as an uninterpreted tag.
   */
  datatype Frequency = Frequency(tag: nat)

  /**
   * The task's date field. The parser stores a resolved date-time; the
   * earlier driver's deadline and event classes are handed the date text
   * itself and keep it as text.
   */
  datatype Schedule = NoDate | At(moment: DateTime) | AsText(text: string)

  /** The field values of a task at one moment. */
  datatype TaskRecord = TaskRecord(
    kind: Kind,
    description: string,
    completed: bool,
    date: Schedule,
    repeated: bool,
    frequency: Option<Frequency>)

  /** The field values of a task just constructed with `description`. */
  function Created(kind: Kind, description: string): TaskRecord {
    TaskRecord(kind, description, false, NoDate, false, None)
  }

  class Task {
    const kind: Kind
    var description: string
    var isCompleted: bool
    var date: Schedule
    var isRepeated: bool
    var frequency: Option<Frequency>

    function Value(): TaskRecord
      reads this
    {
      TaskRecord(kind, description, isCompleted, date, isRepeated, frequency)
    }

    /** A new task keeps the description verbatim and starts not completed and not repeated. */
    constructor (kind: Kind, description: string)
      ensures Value() == Created(kind, description)
    {
      this.kind := kind;
      this.description := description;
      isCompleted := false;
      date := NoDate;
      isRepeated := false;
      frequency := None;
    }

    /** Marks the task done; nothing else about it changes. */
    method CompleteTask()
      modifies this
      ensures Value() == old(Value()).(completed := true)
    {
      isCompleted := true;
    }

    /**
     * The deadline and event subclasses' `setTime`: records the schedule and
     * leaves the completion flag alone.
     */
    method SetTime(when: Schedule)
      modifies this
      ensures Value() == old(Value()).(date := when)
    {
      date := when;
    }

    method GetTaskDescription() returns (d: string)
      ensures d == Value().description
    {
      d := description;
    }

    method GetTime() returns (d: Schedule)
      ensures d == Value().date
    {
      d := date;
    }

    method GetFrequency() returns (f: Option<Frequency>)
      ensures f == Value().frequency
    {
      f := frequency;
    }
  }

  /**
   * A client of `CompleteTask`: completing is idempotent (a second call
   * changes nothing) and a completed task stays completed.
   */
  method CompleteTaskTwice(t: Task)
    modifies t
    ensures t.Value() == old(t.Value()).(completed := true)
    ensures old(t.isCompleted) ==> t.isCompleted
  {
    t.CompleteTask();
    var once := t.Value();
    t.CompleteTask();
    assert t.Value() == once;
  }
}

/** The `tasks` table: its two closed enumerations, the row record and the
    column limits and defaults the schema declares. */
module TaskEntity {
  import opened Common

  /** Priority enum; its string values are the constructor names. */
  datatype Priority = Low | Medium | High

  /** TaskStatus enum; its string values are the constructor names. */
  datatype TaskStatus = Pending | Completed

  /** A calendar date (the `date` column has no time part), counted in days. */
  datatype Date = Date(day: int)

  predicate DateLe(a: Date, b: Date) {
    a.day <= b.day
  }

  /** One row of `tasks`. Only `description` and `dueDate` are nullable; the
      owner is the single non-null `userId` column. `createdAt` is the
      creation timestamp, an abstract clock reading assigned at insert. */
  datatype Task = Task(
    id: string,
    title: string,
    description: Option<string>,
    priority: Priority,
    dueDate: Option<Date>,
    status: TaskStatus,
    userId: string,
    createdAt: nat)

  /** varchar(36) primary key, and the varchar(255) title and userId columns. */
  const IdLength: nat := 36
  const TitleLength: nat := 255
  const UserIdLength: nat := 255

  /** Column defaults of `priority` and `status`. */
  const DefaultPriority: Priority := Medium
  const DefaultStatus: TaskStatus := Pending

  /** The string value of each Priority member. */
  function PriorityName(p: Priority): string {
    match p
    case Low => "Low"
    case Medium => "Medium"
    case High => "High"
  }

  /** The string value of each TaskStatus member. */
  function StatusName(s: TaskStatus): string {
    match s
    case Pending => "Pending"
    case Completed => "Completed"
  }

  /** `Object.values(Priority)`: every member, each once, in declaration order. */
  function PriorityValues(): (r: seq<Priority>)
    ensures |r| == 3
    ensures forall p: Priority :: p in r
    ensures forall i, j :: 0 <= i < j < |r| ==> PriorityName(r[i]) != PriorityName(r[j])
  {
    var r := [Low, Medium, High];
    assert forall p: Priority :: p in r by {
      forall p: Priority ensures p in r {
        assert p == r[0] || p == r[1] || p == r[2];
      }
    }
    r
  }

  /** `Object.values(TaskStatus)`: every member, each once, in declaration order. */
  function StatusValues(): (r: seq<TaskStatus>)
    ensures |r| == 2
    ensures forall s: TaskStatus :: s in r
    ensures StatusName(r[0]) != StatusName(r[1])
  {
    var r := [Pending, Completed];
    assert forall s: TaskStatus :: s in r by {
      forall s: TaskStatus ensures s in r {
        assert s == r[0] || s == r[1];
      }
    }
    r
  }

  /** The member whose string value is `s`, if any (case-sensitive). */
  function ParsePriority(s: string): (r: Option<Priority>)
    ensures r.Some? ==> PriorityName(r.value) == s
    ensures r.None? ==> forall p :: PriorityName(p) != s
  {
    if s == "Low" then Some(Low)
    else if s == "Medium" then Some(Medium)
    else if s == "High" then Some(High)
    else None
  }

  /** The member whose string value is `s`, if any (case-sensitive). */
  function ParseStatus(s: string): (r: Option<TaskStatus>)
    ensures r.Some? ==> StatusName(r.value) == s
    ensures r.None? ==> forall t :: StatusName(t) != s
  {
    if s == "Pending" then Some(Pending)
    else if s == "Completed" then Some(Completed)
    else None
  }

  lemma PriorityNameRoundTrip(p: Priority)
    ensures ParsePriority(PriorityName(p)) == Some(p)
  {
  }

  lemma StatusNameRoundTrip(s: TaskStatus)
    ensures ParseStatus(StatusName(s)) == Some(s)
  {
  }

  /** The row satisfies the varchar length limits of its columns. */
  predicate FitsColumns(t: Task) {
    |t.id| <= IdLength && |t.title| <= TitleLength && |t.userId| <= UserIdLength
  }
}

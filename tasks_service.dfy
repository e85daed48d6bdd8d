/** TasksService: the per-user task table and its five operations. The
    repository becomes a map from task id to row; queries become reads of
    that map and `save`/`remove` become writes to it. */
module Tasks {
  import opened Common
  import opened TaskEntity
  import opened TaskDto

  /** NotFound is the 404 of findOne; DataTooLong is the database refusing a
      row whose varchar columns overflow (strict SQL mode). */
  datatype Error = NotFound | DataTooLong

  /** Every row sits under its own id. */
  predicate KeyedById(tasks: map<string, Task>) {
    forall k :: k in tasks ==> tasks[k].id == k
  }

  /** What the schema guarantees of every stored row. */
  predicate TableInvariant(tasks: map<string, Task>) {
    KeyedById(tasks) && forall k :: k in tasks ==> FitsColumns(tasks[k])
  }

  /** The rows of `tasks` whose owner is `userId`. */
  function OwnedBy(tasks: map<string, Task>, userId: string): map<string, Task> {
    map k | k in tasks && tasks[k].userId == userId :: tasks[k]
  }

  // ---------------------------------------------------------------- create

  /** JavaScript `v || null` on an optional string: "" and null become null. */
  function OrNull(v: Field<string>): Option<string> {
    if v.Value? && v.v != "" then Some(v.v) else None
  }

  /** `v ? new Date(v) : null`; `toDate` stands for the Date constructor. */
  function DateOrNull(v: Field<string>, toDate: string -> Date): Option<Date> {
    if v.Value? && v.v != "" then Some(toDate(v.v)) else None
  }

  /** `v || fallback` on an enum field (every enum value is a non-empty string). */
  function OrDefault<T>(v: Field<T>, fallback: T): T {
    if v.Value? then v.v else fallback
  }

  /** The row `create` builds for `dto` before saving it. */
  function NewTask(dto: CreateTaskDto, userId: string, id: string, now: nat, toDate: string -> Date): (t: Task)
    ensures t.id == id && t.userId == userId && t.title == dto.title && t.createdAt == now
    ensures dto.priority.Value? ==> t.priority == dto.priority.v
    ensures !dto.priority.Value? ==> t.priority == Medium
    ensures dto.status.Value? ==> t.status == dto.status.v
    ensures !dto.status.Value? ==> t.status == Pending
    ensures t.description.None? <==> !dto.description.Value? || dto.description.v == ""
    ensures t.description.Some? ==> t.description.value == dto.description.v
    ensures t.dueDate.None? <==> !dto.dueDate.Value? || dto.dueDate.v == ""
    ensures t.dueDate.Some? ==> t.dueDate.value == toDate(dto.dueDate.v)
  {
    Task(
      id,
      dto.title,
      OrNull(dto.description),
      OrDefault(dto.priority, Medium),
      DateOrNull(dto.dueDate, toDate),
      OrDefault(dto.status, Pending),
      userId,
      now)
  }

  // --------------------------------------------------------------- findOne

  /** `findOne({ where: { id, userId } })`: the row with both that id and that
      owner, or NotFound. */
  function FindOne(tasks: map<string, Task>, id: string, userId: string): (r: Result<Task, Error>)
    requires KeyedById(tasks)
    ensures r.Ok? <==> exists t :: t in tasks.Values && t.id == id && t.userId == userId
    ensures r.Ok? ==> r.value in tasks.Values && r.value.id == id && r.value.userId == userId
    ensures r.Err? ==> r.error == NotFound
  {
    if id in tasks && tasks[id].userId == userId then Ok(tasks[id]) else Err(NotFound)
  }

  // --------------------------------------------------------------- findAll

  /** The status filter in force: only the exact strings "Pending" and
      "Completed" filter; anything else, "" and absence included, does not. */
  function StatusFilter(status: Option<string>): (f: Option<TaskStatus>)
    ensures f.Some? <==> status == Some("Pending") || status == Some("Completed")
    ensures f.Some? ==> StatusName(f.value) == status.value
  {
    if status.Some? && status.value != "" then ParseStatus(status.value) else None
  }

  /** The priority filter in force: only "Low", "Medium" and "High" filter. */
  function PriorityFilter(priority: Option<string>): (f: Option<Priority>)
    ensures f.Some? <==> priority == Some("Low") || priority == Some("Medium") || priority == Some("High")
    ensures f.Some? ==> PriorityName(f.value) == priority.value
  {
    if priority.Some? && priority.value != "" then ParsePriority(priority.value) else None
  }

  /** The WHERE clause of the list query. */
  predicate Matches(t: Task, userId: string, status: Option<TaskStatus>, priority: Option<Priority>) {
    && t.userId == userId
    && (status.Some? ==> t.status == status.value)
    && (priority.Some? ==> t.priority == priority.value)
  }

  function Selected(tasks: map<string, Task>, userId: string, status: Option<TaskStatus>, priority: Option<Priority>): set<Task> {
    set k | k in tasks && Matches(tasks[k], userId, status, priority) :: tasks[k]
  }

  datatype SortOrder = DueDateAscending | CreatedAtDescending

  /** The ORDER BY clause: "dueDate" sorts ascending by due date; "createdAt",
      any other value and absence sort descending by creation time. */
  function SortOrderOf(sortBy: Option<string>): (o: SortOrder)
    ensures o == DueDateAscending <==> sortBy == Some("dueDate")
  {
    if sortBy == Some("dueDate") then DueDateAscending
    else if sortBy == Some("createdAt") then CreatedAtDescending
    else CreatedAtDescending
  }

  /** `a` may come before `b` under `order`. Under DueDateAscending a null due
      date is placed first, as MySQL does; the listing promises nothing about
      where nulls go, only the order of the non-null dates. */
  predicate Precedes(a: Task, b: Task, order: SortOrder) {
    match order
    case DueDateAscending => a.dueDate.None? || (b.dueDate.Some? && DateLe(a.dueDate.value, b.dueDate.value))
    case CreatedAtDescending => a.createdAt >= b.createdAt
  }

  lemma PrecedesIsTotalPreorder(a: Task, b: Task, c: Task, order: SortOrder)
    ensures Precedes(a, a, order)
    ensures Precedes(a, b, order) || Precedes(b, a, order)
    ensures Precedes(a, b, order) && Precedes(b, c, order) ==> Precedes(a, c, order)
  {
  }

  predicate IsFirst(t: Task, s: set<Task>, order: SortOrder) {
    t in s && forall u :: u in s ==> Precedes(t, u, order)
  }

  /** Every non-empty finite set of rows has a first row under `order`. */
  lemma {:induction false} FirstExists(s: set<Task>, order: SortOrder)
    requires s != {}
    ensures exists t :: IsFirst(t, s, order)
    decreases s
  {
    var x :| x in s;
    PrecedesIsTotalPreorder(x, x, x, order);
    if s == {x} {
      assert IsFirst(x, s, order);
    } else {
      FirstExists(s - {x}, order);
      var m :| IsFirst(m, s - {x}, order);
      PrecedesIsTotalPreorder(x, m, m, order);
      if Precedes(x, m, order) {
        forall u | u in s ensures Precedes(x, u, order) {
          if u != x { PrecedesIsTotalPreorder(x, m, u, order); }
        }
        assert IsFirst(x, s, order);
      } else {
        PrecedesIsTotalPreorder(m, m, m, order);
        assert IsFirst(m, s, order);
      }
    }
  }

  /** The rows of `s`, each once, in an order consistent with `order`; how
      rows that compare equal are arranged is left to the choice of `:|`. */
  ghost function OrderBy(s: set<Task>, order: SortOrder): (r: seq<Task>)
    ensures |r| == |s|
    ensures forall t :: t in r <==> t in s
    ensures forall i, j :: 0 <= i < j < |r| ==> r[i] != r[j]
    ensures forall i, j :: 0 <= i < j < |r| ==> Precedes(r[i], r[j], order)
    decreases s
  {
    if s == {} then []
    else
      FirstExists(s, order);
      var t :| IsFirst(t, s, order);
      [t] + OrderBy(s - {t}, order)
  }

  /** `findAll(userId, status, priority, sortBy)`: exactly the caller's rows
      that pass the filters in force, each once, sorted as requested. */
  ghost function FindAll(tasks: map<string, Task>, userId: string, status: Option<string>,
                         priority: Option<string>, sortBy: Option<string>): (r: seq<Task>)
    ensures forall t :: t in r <==>
      && t in tasks.Values
      && t.userId == userId
      && (StatusFilter(status).Some? ==> t.status == StatusFilter(status).value)
      && (PriorityFilter(priority).Some? ==> t.priority == PriorityFilter(priority).value)
    ensures forall i, j :: 0 <= i < j < |r| ==> r[i] != r[j]
    ensures sortBy == Some("dueDate") ==>
      forall i, j :: 0 <= i < j < |r| && r[i].dueDate.Some? && r[j].dueDate.Some? ==>
        DateLe(r[i].dueDate.value, r[j].dueDate.value)
    ensures sortBy != Some("dueDate") ==>
      forall i, j :: 0 <= i < j < |r| ==> r[i].createdAt >= r[j].createdAt
  {
    OrderBy(Selected(tasks, userId, StatusFilter(status), PriorityFilter(priority)), SortOrderOf(sortBy))
  }

  /** A status filter that is not one of the two member names changes
      nothing: the listing is the one with no status filter at all. */
  lemma InvalidStatusFilterIgnored(tasks: map<string, Task>, userId: string, status: Option<string>,
                                   priority: Option<string>, sortBy: Option<string>)
    requires status != Some("Pending") && status != Some("Completed")
    ensures FindAll(tasks, userId, status, priority, sortBy) == FindAll(tasks, userId, None, priority, sortBy)
  {
  }

  /** A priority filter that is not one of the three member names changes
      nothing: the listing is the one with no priority filter at all. */
  lemma InvalidPriorityFilterIgnored(tasks: map<string, Task>, userId: string, status: Option<string>,
                                     priority: Option<string>, sortBy: Option<string>)
    requires priority != Some("Low") && priority != Some("Medium") && priority != Some("High")
    ensures FindAll(tasks, userId, status, priority, sortBy) == FindAll(tasks, userId, status, None, sortBy)
  {
  }

  /** A valid status filter keeps exactly the rows of the unfiltered listing
      that have that status. */
  lemma ValidStatusFilterRestricts(tasks: map<string, Task>, userId: string, s: TaskStatus,
                                   priority: Option<string>, sortBy: Option<string>)
    ensures forall t :: t in FindAll(tasks, userId, Some(StatusName(s)), priority, sortBy) <==>
                        t in FindAll(tasks, userId, None, priority, sortBy) && t.status == s
  {
    StatusNameRoundTrip(s);
  }

  /** A valid priority filter keeps exactly the rows of the unfiltered
      listing that have that priority. */
  lemma ValidPriorityFilterRestricts(tasks: map<string, Task>, userId: string, status: Option<string>,
                                     p: Priority, sortBy: Option<string>)
    ensures forall t :: t in FindAll(tasks, userId, status, Some(PriorityName(p)), sortBy) <==>
                        t in FindAll(tasks, userId, status, None, sortBy) && t.priority == p
  {
    PriorityNameRoundTrip(p);
  }

  /** "createdAt", an unrecognised key and no key give the same listing. */
  lemma DefaultSortIsCreatedAt(tasks: map<string, Task>, userId: string, status: Option<string>,
                               priority: Option<string>, sortBy: Option<string>)
    requires sortBy != Some("dueDate")
    ensures FindAll(tasks, userId, status, priority, sortBy) == FindAll(tasks, userId, status, priority, None)
    ensures FindAll(tasks, userId, status, priority, sortBy) == FindAll(tasks, userId, status, priority, Some("createdAt"))
  {
  }

  // ------------------------------------------------------------- isolation

  /** What findOne and findAll show a caller depends only on the caller's own
      rows: two tables that agree on them look identical to that caller. */
  lemma {:induction false} ViewDependsOnlyOnOwnRows(t1: map<string, Task>, t2: map<string, Task>, userId: string,
                                                    id: string, status: Option<string>, priority: Option<string>,
                                                    sortBy: Option<string>)
    requires KeyedById(t1) && KeyedById(t2)
    requires OwnedBy(t1, userId) == OwnedBy(t2, userId)
    ensures FindOne(t1, id, userId) == FindOne(t2, id, userId)
    ensures FindAll(t1, userId, status, priority, sortBy) == FindAll(t2, userId, status, priority, sortBy)
  {
    var own := OwnedBy(t1, userId);
    assert id in own <==> id in t1 && t1[id].userId == userId;
    assert id in own <==> id in t2 && t2[id].userId == userId;
    var sf, pf := StatusFilter(status), PriorityFilter(priority);
    assert Selected(t1, userId, sf, pf) == Selected(t2, userId, sf, pf) by {
      forall t | t in Selected(t1, userId, sf, pf) ensures t in Selected(t2, userId, sf, pf) {
        var k :| k in t1 && Matches(t1[k], userId, sf, pf) && t1[k] == t;
        assert k in own;
      }
      forall t | t in Selected(t2, userId, sf, pf) ensures t in Selected(t1, userId, sf, pf) {
        var k :| k in t2 && Matches(t2[k], userId, sf, pf) && t2[k] == t;
        assert k in own;
      }
    }
  }

  /** A row owned by someone else is indistinguishable from a missing one. */
  lemma ForeignTaskLooksAbsent(tasks: map<string, Task>, id: string, userId: string, status: Option<string>,
                               priority: Option<string>, sortBy: Option<string>)
    requires KeyedById(tasks)
    requires id in tasks && tasks[id].userId != userId
    ensures FindOne(tasks, id, userId) == FindOne(tasks - {id}, id, userId) == Err(NotFound)
    ensures FindAll(tasks, userId, status, priority, sortBy) == FindAll(tasks - {id}, userId, status, priority, sortBy)
  {
    assert OwnedBy(tasks, userId) == OwnedBy(tasks - {id}, userId);
    ViewDependsOnlyOnOwnRows(tasks, tasks - {id}, userId, id, status, priority, sortBy);
  }

  /** A task is mutable only through its owner: writing row `t` of `owner`
      (a successful create or update) gives every other user the same
      findOne and findAll answers as before. */
  lemma {:induction false} OwnerWriteInvisibleToOthers(tasks: map<string, Task>, owner: string, t: Task,
                                                       other: string, key: string, status: Option<string>,
                                                       priority: Option<string>, sortBy: Option<string>)
    requires KeyedById(tasks) && owner != other
    requires t.userId == owner && (t.id in tasks ==> tasks[t.id].userId == owner)
    ensures KeyedById(tasks[t.id := t])
    ensures FindOne(tasks[t.id := t], key, other) == FindOne(tasks, key, other)
    ensures FindAll(tasks[t.id := t], other, status, priority, sortBy) == FindAll(tasks, other, status, priority, sortBy)
  {
    assert OwnedBy(tasks[t.id := t], other) == OwnedBy(tasks, other);
    ViewDependsOnlyOnOwnRows(tasks[t.id := t], tasks, other, key, status, priority, sortBy);
  }

  /** Deleting a row of `owner` (a successful remove) gives every other user
      the same findOne and findAll answers as before. */
  lemma {:induction false} OwnerDeleteInvisibleToOthers(tasks: map<string, Task>, owner: string, id: string,
                                                        other: string, key: string, status: Option<string>,
                                                        priority: Option<string>, sortBy: Option<string>)
    requires KeyedById(tasks) && owner != other
    requires id in tasks && tasks[id].userId == owner
    ensures KeyedById(tasks - {id})
    ensures FindOne(tasks - {id}, key, other) == FindOne(tasks, key, other)
    ensures FindAll(tasks - {id}, other, status, priority, sortBy) == FindAll(tasks, other, status, priority, sortBy)
  {
    assert OwnedBy(tasks - {id}, other) == OwnedBy(tasks, other);
    ViewDependsOnlyOnOwnRows(tasks - {id}, tasks, other, key, status, priority, sortBy);
  }

  // ---------------------------------------------------------------- update

  /** The row after `update` has assigned the supplied fields: an absent field
      keeps its value; an empty or null description or due date clears it. */
  function Patch(t: Task, dto: UpdateTaskDto, toDate: string -> Date): (r: Task)
    ensures r.id == t.id && r.userId == t.userId && r.createdAt == t.createdAt
    ensures dto.title.None? ==> r.title == t.title
    ensures dto.title.Some? ==> r.title == dto.title.value
    ensures dto.description.Undefined? ==> r.description == t.description
    ensures dto.description.Null? || dto.description == Value("") ==> r.description.None?
    ensures dto.description.Value? && dto.description.v != "" ==> r.description == Some(dto.description.v)
    ensures dto.priority.None? ==> r.priority == t.priority
    ensures dto.priority.Some? ==> r.priority == dto.priority.value
    ensures dto.dueDate.Undefined? ==> r.dueDate == t.dueDate
    ensures dto.dueDate.Null? || dto.dueDate == Value("") ==> r.dueDate.None?
    ensures dto.dueDate.Value? && dto.dueDate.v != "" ==> r.dueDate == Some(toDate(dto.dueDate.v))
    ensures dto.status.None? ==> r.status == t.status
    ensures dto.status.Some? ==> r.status == dto.status.value
    ensures FitsColumns(t) ==> (FitsColumns(r) <==> dto.title.None? || |dto.title.value| <= TitleLength)
  {
    Task(
      t.id,
      if dto.title.Some? then dto.title.value else t.title,
      if dto.description.Undefined? then t.description else OrNull(dto.description),
      if dto.priority.Some? then dto.priority.value else t.priority,
      if dto.dueDate.Undefined? then t.dueDate else DateOrNull(dto.dueDate, toDate),
      if dto.status.Some? then dto.status.value else t.status,
      t.userId,
      t.createdAt)
  }

  /** Sending the same update twice has the effect of sending it once. */
  lemma PatchIdempotent(t: Task, dto: UpdateTaskDto, toDate: string -> Date)
    ensures Patch(Patch(t, dto, toDate), dto, toDate) == Patch(t, dto, toDate)
  {
  }

  /** An update body with no properties leaves the row as it was. */
  lemma EmptyPatchIsIdentity(t: Task, toDate: string -> Date)
    ensures Patch(t, UpdateTaskDto(None, Undefined, None, Undefined, None), toDate) == t
  {
  }

  // --------------------------------------------------------------- service

  /** The service over the task table. */
  class TasksService {
    var tasks: map<string, Task>

    ghost predicate Valid()
      reads this
    {
      TableInvariant(tasks)
    }

    /** The service over the rows the injected repository already holds. */
    constructor (initial: map<string, Task>)
      requires TableInvariant(initial)
      ensures Valid() && tasks == initial
    {
      tasks := initial;
    }

    /** `repository.save(task)`: insert the row, or overwrite the row with the
        same primary key; a row that overflows a column is refused. */
    method Save(task: Task) returns (r: Result<Task, Error>)
      requires Valid()
      modifies this
      ensures Valid()
      ensures FitsColumns(task) ==> r == Ok(task) && tasks == old(tasks)[task.id := task]
      ensures !FitsColumns(task) ==> r == Err(DataTooLong) && tasks == old(tasks)
    {
      if FitsColumns(task) {
        tasks := tasks[task.id := task];
        r := Ok(task);
      } else {
        r := Err(DataTooLong);
      }
    }

    /** `create(dto, userId)`; `id` is the fresh uuid and `now` the insert time. */
    method Create(dto: CreateTaskDto, userId: string, id: string, now: nat, toDate: string -> Date)
      returns (r: Result<Task, Error>)
      requires Valid()
      requires id !in tasks && |id| == IdLength
      modifies this
      ensures Valid()
      ensures r.Ok? <==> |dto.title| <= TitleLength && |userId| <= UserIdLength
      ensures r.Ok? ==> r.value == NewTask(dto, userId, id, now, toDate)
      ensures r.Ok? ==> tasks == old(tasks)[id := r.value] && |tasks| == |old(tasks)| + 1
      ensures r.Ok? ==> FindOne(tasks, id, userId) == Ok(r.value)
      ensures r.Err? ==> r.error == DataTooLong && tasks == old(tasks)
    {
      var task := NewTask(dto, userId, id, now, toDate);
      r := Save(task);
    }

    /** `update(id, dto, userId)`: look the row up as findOne does, assign the
        supplied fields one by one, and save. */
    method Update(id: string, dto: UpdateTaskDto, userId: string, toDate: string -> Date)
      returns (r: Result<Task, Error>)
      requires Valid()
      modifies this
      ensures Valid()
      ensures FindOne(old(tasks), id, userId).Err? ==> r == Err(NotFound) && tasks == old(tasks)
      ensures FindOne(old(tasks), id, userId).Ok? ==>
        var patched := Patch(old(tasks)[id], dto, toDate);
        if FitsColumns(patched) then r == Ok(patched) && tasks == old(tasks)[id := patched]
        else r == Err(DataTooLong) && tasks == old(tasks)
    {
      var found := FindOne(tasks, id, userId);
      if found.Err? {
        return Err(NotFound);
      }
      var task := found.value;
      if dto.title.Some? { task := task.(title := dto.title.value); }
      if !dto.description.Undefined? { task := task.(description := OrNull(dto.description)); }
      if dto.priority.Some? { task := task.(priority := dto.priority.value); }
      if !dto.dueDate.Undefined? { task := task.(dueDate := DateOrNull(dto.dueDate, toDate)); }
      if dto.status.Some? { task := task.(status := dto.status.value); }
      r := Save(task);
    }

    /** `remove(id, userId)`: look the row up as findOne does and delete it. */
    method Remove(id: string, userId: string) returns (r: Result<(), Error>)
      requires Valid()
      modifies this
      ensures Valid()
      ensures r.Err? <==> FindOne(old(tasks), id, userId).Err?
      ensures r.Err? ==> r.error == NotFound && tasks == old(tasks)
      ensures r.Ok? ==> tasks == old(tasks) - {id} && |tasks| == |old(tasks)| - 1
      ensures r.Ok? ==> forall u :: FindOne(tasks, id, u) == Err(NotFound)
    {
      var found := FindOne(tasks, id, userId);
      if found.Err? {
        return Err(NotFound);
      }
      tasks := tasks - {found.value.id};
      r := Ok(());
    }
  }
}

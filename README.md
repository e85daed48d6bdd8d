# Task service model

A Dafny model of the task API of a small multi-user to-do tracker: the
per-user task table and the five operations of `TasksService` (create,
filtered and sorted list, get, partial update, delete), the `Task` row with
its `Priority` and `TaskStatus` enumerations, and the validation rules of
`CreateTaskDto`.

The relational store becomes a map from task id to row, held by the class
`Tasks.TasksService`. `findOne` and `findAll` are functions over that map;
`create`, `update` and `remove` are methods that change it, and `update`
assigns the supplied fields one at a time as the service does. The ORM's
`save` is an insert-or-overwrite by primary key that the database refuses
when a varchar column would overflow (MySQL strict mode), so every stored
row fits its columns (`TableInvariant`).

Environment details are parameters: the fresh uuid is `id` (required to be
absent from the table and 36 characters long), the insert time is `now`,
the ISO 8601 recogniser behind `@IsDateString` is `isDateString`, and the
`Date` constructor applied to a due-date string is `toDate`. A due date is
an abstract calendar day with its total order.

Modules: `Common` (Option, Result), `TaskEntity` (backend/src/entities/task.entity.ts),
`TaskDto` (backend/src/tasks/dto/create-task.dto.ts and the update body),
`Tasks` (backend/src/tasks/tasks.service.ts), and `Scenario`, a client that
walks one task through create, complete and delete while a second user
looks on.

Structural facts carried by the types rather than by a member: `description`
and `dueDate` are `Option` (nullable) and no other field is; each row has
exactly one owner, the non-null `userId`. `create` does not rely on the
column defaults: it supplies its own fallbacks, Medium and Pending, which
equal the entity's column defaults `DefaultPriority` and `DefaultStatus`.

The service's `create` does not reject an empty title itself. The
`CreateTaskDto` validator does, and `update` can set the title to "". The
status and priority filters compare exact, case-sensitive strings, so
"completed" is not a filter and is ignored.

## Model

| member | source | states |
|---|---|---|
| TaskEntity.PriorityValues | backend/src/entities/task.entity.ts:4-8 | Priority has exactly three members, each listed once with distinct string values |
| TaskEntity.StatusValues | backend/src/entities/task.entity.ts:10-13 | TaskStatus has exactly two members with distinct string values |
| TaskEntity.ParsePriority | backend/src/entities/task.entity.ts:4-8 | a string names a Priority member exactly when it is one of the member strings, and then names that member |
| TaskEntity.ParseStatus | backend/src/entities/task.entity.ts:10-13 | a string names a TaskStatus member exactly when it is one of the member strings, and then names that member |
| TaskEntity.PriorityNameRoundTrip | backend/src/entities/task.entity.ts:4-8 | parsing a member's string value gives back that member |
| TaskEntity.StatusNameRoundTrip | backend/src/entities/task.entity.ts:10-13 | parsing a member's string value gives back that member |
| TaskDto.Validate | backend/src/tasks/dto/create-task.dto.ts:4-24 | a body passes exactly when title is a non-empty string and each optional property is absent, null or of its type; a passing body decodes to a DTO that re-encodes to the same body; a failing one reports a non-empty set of property names, "title" exactly when the title check failed |
| TaskDto.ValidateAcceptsEncoded | backend/src/tasks/dto/create-task.dto.ts:4-24 | every DTO with a non-empty title and a recognised due date passes validation and decodes to itself |
| TaskDto.MissingOrEmptyTitleRejected | backend/src/tasks/dto/create-task.dto.ts:5-7 | a missing, null, non-string or empty title is rejected and reported under "title" |
| TaskDto.WhitespaceTitleAccepted | backend/src/tasks/dto/create-task.dto.ts:5-7 | every non-empty title made only of spaces, tabs or line breaks passes, with the other properties valid, and is kept untrimmed, because IsNotEmpty does not trim |
| TaskDto.UnknownPriorityRejected | backend/src/tasks/dto/create-task.dto.ts:13-15 | every body whose priority is a string naming no member is rejected, and when the other properties are valid only "priority" is reported |
| TaskDto.LowerCaseHighIsNoPriority | backend/src/tasks/dto/create-task.dto.ts:13-15 | the enum check is case-sensitive: "high" names no Priority member |
| Tasks.NewTask | backend/src/tasks/tasks.service.ts:17-25 | the new row has the given id, owner, title and insert time; absent or null priority and status take the service's fallbacks Medium and Pending, which equal the column defaults; absent, null or empty description and due date become null; a supplied due date is the parsed date |
| Tasks.FindOne | backend/src/tasks/tasks.service.ts:59-65 | succeeds exactly when some row has both the given id and the caller as owner, and returns that row; otherwise fails with NotFound |
| Tasks.StatusFilter | backend/src/tasks/tasks.service.ts:40-42 | a status filter is in force exactly when the query value is "Pending" or "Completed", and it is that member |
| Tasks.PriorityFilter | backend/src/tasks/tasks.service.ts:44-46 | a priority filter is in force exactly when the query value is "Low", "Medium" or "High", and it is that member |
| Tasks.SortOrderOf | backend/src/tasks/tasks.service.ts:48-54 | the listing is sorted by due date ascending exactly when sortBy is "dueDate"; otherwise by creation time descending |
| Tasks.PrecedesIsTotalPreorder | backend/src/tasks/tasks.service.ts:48-54 | each sort key is reflexive, total and transitive |
| Tasks.FirstExists | backend/src/tasks/tasks.service.ts:48-54 | every non-empty set of rows has a first row under either sort key |
| Tasks.OrderBy | backend/src/tasks/tasks.service.ts:48-56 | the ordered result holds every row of the set once and nothing else, and each row may precede every later one under the key |
| Tasks.FindAll | backend/src/tasks/tasks.service.ts:30-57 | the listing holds exactly the caller's rows that pass the filters in force, each once; with sortBy "dueDate" non-null due dates are non-decreasing, otherwise creation times are non-increasing |
| Tasks.InvalidStatusFilterIgnored | backend/src/tasks/tasks.service.ts:40-42 | any status value other than the two member strings gives the same listing as no status filter |
| Tasks.InvalidPriorityFilterIgnored | backend/src/tasks/tasks.service.ts:44-46 | any priority value other than the three member strings gives the same listing as no priority filter |
| Tasks.ValidStatusFilterRestricts | backend/src/tasks/tasks.service.ts:40-42 | a valid status filter keeps exactly the unfiltered listing's rows with that status |
| Tasks.ValidPriorityFilterRestricts | backend/src/tasks/tasks.service.ts:44-46 | a valid priority filter keeps exactly the unfiltered listing's rows with that priority |
| Tasks.DefaultSortIsCreatedAt | backend/src/tasks/tasks.service.ts:48-54 | sortBy "createdAt", an unrecognised value and no value give the same listing |
| Tasks.ViewDependsOnlyOnOwnRows | backend/src/tasks/tasks.service.ts:36-60 | two tables that agree on a caller's rows give that caller the same findOne and findAll answers |
| Tasks.ForeignTaskLooksAbsent | backend/src/tasks/tasks.service.ts:59-65 | a row owned by someone else gives NotFound and leaves the caller's listing as if the row were deleted |
| Tasks.OwnerWriteInvisibleToOthers | backend/src/tasks/tasks.service.ts:16-77 | writing one of the owner's rows, as a successful create or update does, leaves every other user's findOne and findAll answers unchanged |
| Tasks.OwnerDeleteInvisibleToOthers | backend/src/tasks/tasks.service.ts:79-82 | deleting one of the owner's rows, as a successful remove does, leaves every other user's findOne and findAll answers unchanged |
| Tasks.Patch | backend/src/tasks/tasks.service.ts:70-74 | the update changes only supplied fields; a null or empty description or due date clears it; id, owner and creation time never change; the result fits the columns exactly when a supplied title fits |
| Tasks.PatchIdempotent | backend/src/tasks/tasks.service.ts:67-77 | applying the same update body twice equals applying it once |
| Tasks.EmptyPatchIsIdentity | backend/src/tasks/tasks.service.ts:70-74 | an update body with no properties leaves the row unchanged |
| Tasks.TasksService.constructor | backend/src/tasks/tasks.service.ts:11-14 | the service starts over the rows the injected repository already holds, which satisfy the table invariant |
| Tasks.TasksService.Save | backend/src/entities/task.entity.ts:17-44 | a row that fits the varchar(36) id and varchar(255) title and userId columns is written under its id; one that does not is refused with DataTooLong and the table is unchanged |
| Tasks.TasksService.Create | backend/src/tasks/tasks.service.ts:16-28 | on success the table gains exactly one row, the NewTask row under the fresh id, owned by the caller and found by findOne; it fails with DataTooLong, changing nothing, exactly when title or userId is too long |
| Tasks.TasksService.Update | backend/src/tasks/tasks.service.ts:67-77 | NotFound, changing nothing, when findOne fails; otherwise the row becomes the Patch of the old row and no other row changes, or DataTooLong when the new title overflows |
| Tasks.TasksService.Remove | backend/src/tasks/tasks.service.ts:79-82 | NotFound, changing nothing, exactly when findOne fails; otherwise exactly that row is deleted and findOne on it then fails for every caller |

## Left out

- Authentication (backend/src/auth/auth.service.ts): password hashing and token signing are library calls; the caller's user id is a parameter.
- HTTP routing and response wrapping (backend/src/tasks/tasks.controller.ts), database configuration (backend/src/app.module.ts), the user table (backend/src/entities/user.entity.ts) and the front end (frontend/): no service logic; the front end's status toggle is an update with only `status` set.
- `updatedAt`: the ORM decides when the update timestamp changes, so the row does not carry it.
- Tasks.FindAll: a specification function; the order of rows with equal sort keys and the place of null due dates are left to the database, so the contract constrains neither.
- Tasks.TasksService.Create: uuid generation is a parameter required to be fresh; the upsert a colliding uuid would cause is not modelled.
- Tasks.TasksService.Save: the foreign key from `userId` to the user table is not checked, since the user table is not modelled; the 64 KB limit of the `text` description column is not modelled.
- Tasks.FindOne: ids and owners compare exactly; MySQL's default case-insensitive collation is not modelled.
- Tasks.NewTask: the date parsing and the time-zone handling between a due-date string and the `date` column are the parameter `toDate`.
- TaskDto.Validate: the ISO 8601 recogniser is the parameter `isDateString`; extra body properties, validation-pipe options and error message texts are not modelled; arrays and objects are opaque JSON values.
- Tasks.TasksService.Update: the update body's own validation (backend/src/tasks/dto/update-task.dto.ts is not part of this model) is not modelled, and a null title, priority or status in it cannot be expressed.
- Tasks.StatusFilter: a query parameter repeated into an array is not modelled; query values are strings or absent.
- Concurrency: each operation is one atomic step on the table.

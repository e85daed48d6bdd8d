/** Request bodies of the task endpoints: the JSON a client sends, the
    CreateTaskDto validation rules that guard `POST /tasks`, and the typed
    create and update DTOs the service receives. */
module TaskDto {
  import opened Common
  import opened TaskEntity

  /** A JSON value as it arrives in a request body. */
  datatype Json = JString(s: string) | JNumber(n: int) | JBool(b: bool) | JArray | JObject

  /** A JavaScript property: `undefined` (absent), `null`, or a value. */
  datatype Field<+T> = Undefined | Null | Value(v: T)

  /** The body of `POST /tasks` before validation. */
  datatype CreateRequest = CreateRequest(
    title: Field<Json>,
    description: Field<Json>,
    priority: Field<Json>,
    dueDate: Field<Json>,
    status: Field<Json>)

  /** CreateTaskDto once validated: title is a string, every optional field
      is absent, null, or a value of its declared type. */
  datatype CreateTaskDto = CreateTaskDto(
    title: string,
    description: Field<string>,
    priority: Field<Priority>,
    dueDate: Field<string>,
    status: Field<TaskStatus>)

  /** UpdateTaskDto: CreateTaskDto with every field optional. `None` and
      `Undefined` mean the property was not sent. */
  datatype UpdateTaskDto = UpdateTaskDto(
    title: Option<string>,
    description: Field<string>,
    priority: Option<Priority>,
    dueDate: Field<string>,
    status: Option<TaskStatus>)

  /** `@IsNotEmpty() @IsString()`: present, a string, and not "" (no trimming). */
  predicate TitleOk(v: Field<Json>) {
    v.Value? && v.v.JString? && v.v.s != ""
  }

  /** `@IsOptional() @IsString()`: null and undefined skip the check. */
  predicate OptionalStringOk(v: Field<Json>) {
    v.Value? ==> v.v.JString?
  }

  /** `@IsOptional() @IsEnum(Priority)`: a string among Object.values(Priority). */
  predicate OptionalPriorityOk(v: Field<Json>) {
    v.Value? ==> v.v.JString? && exists p :: p in PriorityValues() && PriorityName(p) == v.v.s
  }

  /** `@IsOptional() @IsEnum(TaskStatus)`: a string among Object.values(TaskStatus). */
  predicate OptionalStatusOk(v: Field<Json>) {
    v.Value? ==> v.v.JString? && exists s :: s in StatusValues() && StatusName(s) == v.v.s
  }

  /** `@IsOptional() @IsDateString()`: a string the ISO 8601 recogniser accepts;
      the recogniser itself is the parameter `isDateString`. */
  predicate OptionalDateOk(v: Field<Json>, isDateString: string -> bool) {
    v.Value? ==> v.v.JString? && isDateString(v.v.s)
  }

  /** The names of the properties of `req` that fail their constraints. */
  function Failures(req: CreateRequest, isDateString: string -> bool): set<string> {
    (if TitleOk(req.title) then {} else {"title"})
    + (if OptionalStringOk(req.description) then {} else {"description"})
    + (if OptionalPriorityOk(req.priority) then {} else {"priority"})
    + (if OptionalDateOk(req.dueDate, isDateString) then {} else {"dueDate"})
    + (if OptionalStatusOk(req.status) then {} else {"status"})
  }

  function DecodeString(v: Field<Json>): Field<string>
    requires OptionalStringOk(v)
  {
    match v
    case Undefined => Undefined
    case Null => Null
    case Value(j) => Value(j.s)
  }

  function DecodePriority(v: Field<Json>): Field<Priority>
    requires OptionalPriorityOk(v)
  {
    match v
    case Undefined => Undefined
    case Null => Null
    case Value(j) => match ParsePriority(j.s) case Some(p) => Value(p) case None => Undefined
  }

  function DecodeStatus(v: Field<Json>): Field<TaskStatus>
    requires OptionalStatusOk(v)
  {
    match v
    case Undefined => Undefined
    case Null => Null
    case Value(j) => match ParseStatus(j.s) case Some(s) => Value(s) case None => Undefined
  }

  /** The JSON body a client sends for `dto`. */
  function ToRequest(dto: CreateTaskDto): CreateRequest {
    CreateRequest(
      Value(JString(dto.title)),
      EncodeField(dto.description, s => JString(s)),
      EncodeField(dto.priority, p => JString(PriorityName(p))),
      EncodeField(dto.dueDate, s => JString(s)),
      EncodeField(dto.status, s => JString(StatusName(s))))
  }

  function EncodeField<T>(f: Field<T>, encode: T -> Json): Field<Json> {
    match f
    case Undefined => Undefined
    case Null => Null
    case Value(v) => Value(encode(v))
  }

  /** Validation of a create body: either the typed DTO, or the non-empty
      set of properties whose constraints failed (answered with 400). */
  function Validate(req: CreateRequest, isDateString: string -> bool): (r: Result<CreateTaskDto, set<string>>)
    ensures r.Ok? <==> TitleOk(req.title) && OptionalStringOk(req.description)
                       && OptionalPriorityOk(req.priority) && OptionalDateOk(req.dueDate, isDateString)
                       && OptionalStatusOk(req.status)
    ensures r.Ok? ==> ToRequest(r.value) == req && r.value.title != ""
    ensures r.Err? ==> r.error != {} && r.error <= {"title", "description", "priority", "dueDate", "status"}
    ensures r.Err? ==> ("title" in r.error <==> !TitleOk(req.title))
  {
    var failed := Failures(req, isDateString);
    if failed == {} then
      Ok(CreateTaskDto(
        req.title.v.s,
        DecodeString(req.description),
        DecodePriority(req.priority),
        DecodeString(req.dueDate),
        DecodeStatus(req.status)))
    else
      Err(failed)
  }

  /** Every well-typed DTO with a non-empty title and a recognised date, sent
      as JSON, passes validation and decodes to itself. */
  lemma ValidateAcceptsEncoded(dto: CreateTaskDto, isDateString: string -> bool)
    requires dto.title != ""
    requires dto.dueDate.Value? ==> isDateString(dto.dueDate.v)
    ensures Validate(ToRequest(dto), isDateString) == Ok(dto)
  {
  }

  /** A missing, null, non-string or empty title is always rejected, and
      "title" is among the reported properties. */
  lemma MissingOrEmptyTitleRejected(req: CreateRequest, isDateString: string -> bool)
    requires req.title.Undefined? || req.title.Null? || req.title == Value(JString(""))
             || (req.title.Value? && !req.title.v.JString?)
    ensures Validate(req, isDateString).Err? && "title" in Validate(req, isDateString).error
  {
  }

  /** `@IsNotEmpty` does not trim: a title made only of spaces, tabs or
      line breaks passes, whatever the other (valid) properties are. */
  lemma WhitespaceTitleAccepted(req: CreateRequest, isDateString: string -> bool)
    requires req.title.Value? && req.title.v.JString? && |req.title.v.s| > 0
    requires forall i :: 0 <= i < |req.title.v.s| ==> req.title.v.s[i] in {' ', '\t', '\n', '\r'}
    requires OptionalStringOk(req.description) && OptionalPriorityOk(req.priority)
    requires OptionalDateOk(req.dueDate, isDateString) && OptionalStatusOk(req.status)
    ensures Validate(req, isDateString).Ok? && Validate(req, isDateString).value.title == req.title.v.s
  {
  }

  /** A priority string that names no member, such as a lower-case "high",
      is rejected, and when every other property is valid it is the only
      one reported. */
  lemma UnknownPriorityRejected(req: CreateRequest, isDateString: string -> bool)
    requires req.priority.Value? && req.priority.v.JString? && ParsePriority(req.priority.v.s).None?
    requires TitleOk(req.title) && OptionalStringOk(req.description)
    requires OptionalDateOk(req.dueDate, isDateString) && OptionalStatusOk(req.status)
    ensures Validate(req, isDateString) == Err({"priority"})
  {
    assert !OptionalPriorityOk(req.priority);
    assert Failures(req, isDateString) == {"priority"};
  }

  /** The lower-case spelling "high" names no Priority member. */
  lemma LowerCaseHighIsNoPriority()
    ensures ParsePriority("high") == None
  {
  }
}
